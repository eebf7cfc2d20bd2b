/** A task awaited by any number of coroutines: one pointer says that it has not been started, is ready, or who waits. */
module SharedTask {
  import opened Lists

  type Id = nat

  /** The values of a `void*`: null, the address of the pointer itself, the address of the promise, a waiter node. */
  datatype Pointer = Null | NotStarted | Ready | Node(id: Id)

  datatype Phase =
    | Load      // try_await: about to load the pointer
    | Start     // about to exchange NotStarted for null
    | Resume    // about to start the coroutine
    | Reload
    | Decide    // knows a value of the pointer that is not NotStarted
    | Link      // has written its m_next, about to exchange the pointer
    | Suspended
    | Continued

  datatype Waiter = Waiter(phase: Phase, known: Pointer, next: Pointer, continued: nat)

  /** The coroutine of the task, and its final suspension, which walks through the waiters. */
  datatype Runner =
    | Idle | Running | Exchanging
    | Reading(cur: Id)            // about to read m_next of a waiter
    | Waking(cur: Id, next: Id)   // has read it, about to resume the waiter
    | WakingLast(cur: Id)
    | Done

  /** `list` and `starter` name the queued nodes in order and the waiter about to start the coroutine; no step reads
      them. `broken` records a dereferenced pointer that is not a suspended waiter, or a coroutine resumed although it
      was not suspended. */
  datatype State = State(
    word: Pointer, runner: Runner, waiters: map<Id, Waiter>, started: nat, broken: bool,
    list: seq<Id>, starter: Option<Id>)

  function Initial(): State {
    State(NotStarted, Idle, map[], 0, false, [], None)
  }

  datatype Step =
    | Await(n: Id)        // co_await: await_ready loads the pointer
    | LoadWord(n: Id)
    | StartSwap(n: Id)
    | StartTask(n: Id)
    | ReloadWord(n: Id)
    | Choose(n: Id)
    | LinkOk(n: Id)
    | LinkFail(n: Id)
    | Finish
    | FinalExchange
    | ReadNext
    | WakeOne

  predicate InPhase(s: State, n: Id, p: Phase) {
    n in s.waiters && s.waiters[n].phase == p
  }

  predicate Enabled(s: State, step: Step) {
    match step
    case Await(n) => n !in s.waiters
    case LoadWord(n) => InPhase(s, n, Load)
    case StartSwap(n) => InPhase(s, n, Start)
    case StartTask(n) => InPhase(s, n, Resume)
    case ReloadWord(n) => InPhase(s, n, Reload)
    case Choose(n) => InPhase(s, n, Decide)
    case LinkOk(n) => InPhase(s, n, Link) && s.word == s.waiters[n].known
    case LinkFail(n) => InPhase(s, n, Link)
    case Finish => s.runner == Running
    case FinalExchange => s.runner == Exchanging
    case ReadNext => s.runner.Reading?
    case WakeOne => s.runner.Waking? || s.runner.WakingLast?
  }

  function Update(s: State, n: Id, w: Waiter): State {
    s.(waiters := s.waiters[n := w])
  }

  function DoAwait(s: State, n: Id): State {
    Update(s, n, if s.word == Ready then Waiter(Continued, Ready, Null, 1) else Waiter(Load, Null, Null, 0))
  }

  function DoLoad(s: State, n: Id): State
    requires n in s.waiters
  {
    Update(s, n, s.waiters[n].(known := s.word, phase := if s.word == NotStarted then Start else Decide))
  }

  function DoStartSwap(s: State, n: Id): State
    requires n in s.waiters
  {
    if s.word == NotStarted then Update(s, n, s.waiters[n].(phase := Resume)).(word := Null, starter := Some(n))
    else Update(s, n, s.waiters[n].(known := s.word, phase := Decide))
  }

  function DoStartTask(s: State, n: Id): State
    requires n in s.waiters
  {
    if s.runner != Idle then s.(broken := true)
    else Update(s, n, s.waiters[n].(phase := Reload)).(runner := Running, started := s.started + 1, starter := None)
  }

  function DoReload(s: State, n: Id): State
    requires n in s.waiters
  {
    Update(s, n, s.waiters[n].(known := s.word, phase := Decide))
  }

  function DoChoose(s: State, n: Id): State
    requires n in s.waiters
  {
    var w := s.waiters[n];
    Update(s, n, if w.known == Ready then w.(phase := Continued, continued := w.continued + 1)
                 else w.(next := w.known, phase := Link))
  }

  function DoLink(s: State, n: Id): State
    requires n in s.waiters
  {
    Update(s, n, s.waiters[n].(phase := Suspended)).(word := Node(n), list := [n] + s.list)
  }

  function DoLinkFail(s: State, n: Id): State
    requires n in s.waiters
  {
    Update(s, n, s.waiters[n].(known := s.word, phase := Decide))
  }

  function DoExchange(s: State): State {
    match s.word
    case Null => s.(word := Ready, runner := Done)
    case Node(n) => s.(word := Ready, runner := Reading(n))
    case _ => s.(broken := true)
  }

  function DoReadNext(s: State): State
    requires s.runner.Reading?
  {
    var cur := s.runner.cur;
    if !InPhase(s, cur, Suspended) then s.(broken := true)
    else
      match s.waiters[cur].next
      case Null => s.(runner := WakingLast(cur))
      case Node(m) => s.(runner := Waking(cur, m))
      case _ => s.(broken := true)
  }

  function DoWake(s: State): State
    requires s.runner.Waking? || s.runner.WakingLast?
  {
    var cur := s.runner.cur;
    if !InPhase(s, cur, Suspended) || s.list == [] then s.(broken := true)
    else
      var w := s.waiters[cur];
      Update(s, cur, w.(phase := Continued, continued := w.continued + 1))
        .(list := s.list[1..], runner := if s.runner.Waking? then Reading(s.runner.next) else Done)
  }

  function Do(s: State, step: Step): State
    requires Enabled(s, step)
  {
    match step
    case Await(n) => DoAwait(s, n)
    case LoadWord(n) => DoLoad(s, n)
    case StartSwap(n) => DoStartSwap(s, n)
    case StartTask(n) => DoStartTask(s, n)
    case ReloadWord(n) => DoReload(s, n)
    case Choose(n) => DoChoose(s, n)
    case LinkOk(n) => DoLink(s, n)
    case LinkFail(n) => DoLinkFail(s, n)
    case Finish => s.(runner := Exchanging)
    case FinalExchange => DoExchange(s)
    case ReadNext => DoReadNext(s)
    case WakeOne => DoWake(s)
  }

  ghost predicate Run(trace: seq<State>, steps: seq<Step>) {
    && |trace| == |steps| + 1 && trace[0] == Initial()
    && forall i :: 0 <= i < |steps| ==> Enabled(trace[i], steps[i]) && trace[i + 1] == Do(trace[i], steps[i])
  }

  // ---------------------------------------------------------------- the invariant

  function HeadPointer(list: seq<Id>): Pointer {
    if list == [] then Null else Node(list[0])
  }

  /** The pointer against the progress of the task. */
  ghost predicate WordOk(s: State) {
    match s.runner
    case Idle =>
      s.started == 0
      && if s.starter.None? then s.word == NotStarted && s.list == [] else s.word == HeadPointer(s.list)
    case Running => s.started == 1 && s.starter.None? && s.word == HeadPointer(s.list)
    case Exchanging => s.started == 1 && s.starter.None? && s.word == HeadPointer(s.list)
    case Reading(cur) => s.started == 1 && s.starter.None? && s.word == Ready && s.list != [] && s.list[0] == cur
    case Waking(cur, next) =>
      s.started == 1 && s.starter.None? && s.word == Ready && |s.list| > 1 && s.list[0] == cur && s.list[1] == next
    case WakingLast(cur) => s.started == 1 && s.starter.None? && s.word == Ready && s.list == [cur]
    case Done => s.started == 1 && s.starter.None? && s.word == Ready && s.list == []
  }

  ghost predicate WaiterOk(s: State, n: Id, w: Waiter) {
    && (w.phase == Resume <==> s.starter == Some(n))
    && (w.phase == Suspended <==> n in s.list)
    && (w.phase in {Resume, Reload, Decide, Link, Suspended, Continued} ==> s.word != NotStarted)
    && (w.phase in {Decide, Link, Suspended} ==> w.known != NotStarted)
    && (w.phase == Link ==> w.next == w.known && w.next != Ready)
    && (w.phase == Decide && w.known == Ready ==> s.word == Ready)
    && (if w.phase == Continued then w.continued == 1 && s.word == Ready else w.continued == 0)
  }

  ghost predicate WaitersOk(s: State) {
    forall n :: n in s.waiters ==> WaiterOk(s, n, s.waiters[n])
  }

  /** The nodes of the list are linked through their `m_next`, and null ends it. */
  ghost predicate Linked(waiters: map<Id, Waiter>, list: seq<Id>) {
    && NoDup(list)
    && forall i :: 0 <= i < |list| ==>
         list[i] in waiters && waiters[list[i]].next == HeadPointer(list[i + 1..])
  }

  ghost predicate Inv(s: State) {
    && !s.broken && WordOk(s) && WaitersOk(s) && Linked(s.waiters, s.list)
    && (s.starter.Some? ==> s.starter.value in s.waiters)
  }

  /** A waiter that is not queued may do what it likes with its node. */
  lemma OneWaiter(s: State, n: Id, w: Waiter)
    requires Inv(s) && n !in s.list && WaiterOk(s, n, w) && w.phase != Suspended
    requires s.starter == Some(n) <==> w.phase == Resume
    ensures Inv(Update(s, n, w))
  {
  }

  lemma LocalKeeps(s: State, step: Step)
    requires Inv(s) && Enabled(s, step)
    requires step.Await? || step.LoadWord? || step.ReloadWord? || step.Choose? || step.LinkFail?
    ensures Inv(Do(s, step))
  {
    if step.Await? {
      assert step.n !in s.list;
    } else {
      assert WaiterOk(s, step.n, s.waiters[step.n]);
    }
    OneWaiter(s, step.n, Do(s, step).waiters[step.n]);
    assert Do(s, step) == Update(s, step.n, Do(s, step).waiters[step.n]);
  }

  lemma StartSwapKeeps(s: State, n: Id)
    requires Inv(s) && InPhase(s, n, Start)
    ensures Inv(DoStartSwap(s, n))
  {
    assert WaiterOk(s, n, s.waiters[n]);
    if s.word != NotStarted {
      OneWaiter(s, n, s.waiters[n].(known := s.word, phase := Decide));
    } else {
      var t := DoStartSwap(s, n);
      forall m | m in t.waiters ensures WaiterOk(t, m, t.waiters[m]) {
        assert m in s.waiters && WaiterOk(s, m, s.waiters[m]);
      }
    }
  }

  lemma StartTaskKeeps(s: State, n: Id)
    requires Inv(s) && InPhase(s, n, Resume)
    ensures Inv(DoStartTask(s, n))
  {
    assert WaiterOk(s, n, s.waiters[n]);
    var t := DoStartTask(s, n);
    forall m | m in t.waiters ensures WaiterOk(t, m, t.waiters[m]) {
      assert m in s.waiters && WaiterOk(s, m, s.waiters[m]);
    }
  }

  lemma LinkedPush(waiters: map<Id, Waiter>, list: seq<Id>, n: Id, w: Waiter)
    requires Linked(waiters, list) && n !in list && w.next == HeadPointer(list)
    ensures Linked(waiters[n := w], [n] + list)
  {
    var longer := [n] + list;
    forall i | 0 <= i < |longer| ensures longer[i] in waiters[n := w] && waiters[n := w][longer[i]].next == HeadPointer(longer[i + 1..]) {
      if i == 0 {
        assert longer[1..] == list;
      } else {
        assert longer[i] == list[i - 1] && longer[i + 1..] == list[i..];
      }
    }
  }

  lemma LinkKeeps(s: State, n: Id)
    requires Inv(s) && InPhase(s, n, Link) && s.word == s.waiters[n].known
    ensures Inv(DoLink(s, n))
  {
    var t := DoLink(s, n);
    assert WaiterOk(s, n, s.waiters[n]);
    LinkedPush(s.waiters, s.list, n, t.waiters[n]);
    forall m | m in t.waiters ensures WaiterOk(t, m, t.waiters[m]) {
      assert m in s.waiters && WaiterOk(s, m, s.waiters[m]);
    }
  }

  lemma ExchangeKeeps(s: State)
    requires Inv(s) && s.runner == Exchanging
    ensures Inv(DoExchange(s))
  {
    var t := DoExchange(s);
    forall m | m in t.waiters ensures WaiterOk(t, m, t.waiters[m]) {
      assert WaiterOk(s, m, s.waiters[m]);
    }
  }

  lemma ReadNextKeeps(s: State)
    requires Inv(s) && s.runner.Reading?
    ensures Inv(DoReadNext(s))
  {
    var cur, t := s.runner.cur, DoReadNext(s);
    assert cur == s.list[0];
    assert WaiterOk(s, cur, s.waiters[cur]);
    forall m | m in t.waiters ensures WaiterOk(t, m, t.waiters[m]) {
      assert WaiterOk(s, m, s.waiters[m]);
    }
  }

  lemma LinkedPop(waiters: map<Id, Waiter>, list: seq<Id>, w: Waiter)
    requires Linked(waiters, list) && list != []
    ensures Linked(waiters[list[0] := w], list[1..])
  {
    var shorter := list[1..];
    forall i | 0 <= i < |shorter|
      ensures shorter[i] in waiters[list[0] := w] && waiters[list[0] := w][shorter[i]].next == HeadPointer(shorter[i + 1..])
    {
      assert shorter[i] == list[i + 1] && shorter[i + 1..] == list[i + 2..] && list[0] != list[i + 1];
    }
  }

  lemma WakeOther(s: State, m: Id)
    requires Inv(s) && (s.runner.Waking? || s.runner.WakingLast?) && m in s.waiters
    ensures WaiterOk(DoWake(s), m, DoWake(s).waiters[m])
  {
    assert WaiterOk(s, m, s.waiters[m]);
    assert s.list == [s.runner.cur] + s.list[1..];
  }

  lemma WakeList(s: State)
    requires Inv(s) && (s.runner.Waking? || s.runner.WakingLast?)
    ensures var t := DoWake(s); s.runner.cur in s.waiters && t.waiters.Keys == s.waiters.Keys && Linked(t.waiters, t.list)
  {
    var cur := s.runner.cur;
    assert cur == s.list[0];
    LinkedPop(s.waiters, s.list, DoWake(s).waiters[cur]);
  }

  lemma WakeKeeps(s: State)
    requires Inv(s) && (s.runner.Waking? || s.runner.WakingLast?)
    ensures Inv(DoWake(s))
  {
    WakeList(s);
    assert WaiterOk(s, s.runner.cur, s.waiters[s.runner.cur]);
    var t := DoWake(s);
    forall m | m in t.waiters ensures WaiterOk(t, m, t.waiters[m]) {
      WakeOther(s, m);
    }
  }

  lemma StepKeeps(s: State, step: Step)
    requires Inv(s) && Enabled(s, step)
    ensures Inv(Do(s, step))
  {
    match step
    case StartSwap(n) => StartSwapKeeps(s, n);
    case StartTask(n) => StartTaskKeeps(s, n);
    case LinkOk(n) => LinkKeeps(s, n);
    case Finish =>
      var t := s.(runner := Exchanging);
      forall m | m in t.waiters ensures WaiterOk(t, m, t.waiters[m]) {
        assert WaiterOk(s, m, s.waiters[m]);
      }
    case FinalExchange => ExchangeKeeps(s);
    case ReadNext => ReadNextKeeps(s);
    case WakeOne => WakeKeeps(s);
    case _ => LocalKeeps(s, step);
  }

  lemma {:induction false} ReachableInv(trace: seq<State>, steps: seq<Step>, i: nat)
    requires Run(trace, steps) && i < |trace|
    ensures Inv(trace[i])
  {
    if i > 0 {
      ReachableInv(trace, steps, i - 1);
      StepKeeps(trace[i - 1], steps[i - 1]);
    }
  }

  // ---------------------------------------------------------------- what holds in every run

  /** The coroutine is started once: not before a waiter wins the exchange, and never again. */
  lemma StartedOnce(trace: seq<State>, steps: seq<Step>, i: nat)
    requires Run(trace, steps) && i < |trace|
    ensures trace[i].started == if trace[i].runner == Idle then 0 else 1
    ensures !trace[i].broken
  {
    ReachableInv(trace, steps, i);
  }

  lemma StaysReady(s: State, step: Step)
    requires Inv(s) && Enabled(s, step) && s.word == Ready
    ensures Do(s, step).word == Ready
  {
    match step
    case StartTask(n) => assert false;
    case LinkOk(n) => assert false;
    case _ =>
  }

  /** Once the result is ready it stays ready. */
  lemma {:induction false} ReadyIsStable(trace: seq<State>, steps: seq<Step>, i: nat, j: nat)
    requires Run(trace, steps) && i <= j < |trace| && trace[i].word == Ready
    ensures trace[j].word == Ready
    decreases j
  {
    if i < j {
      ReadyIsStable(trace, steps, i, j - 1);
      ReachableInv(trace, steps, j - 1);
      StaysReady(trace[j - 1], steps[j - 1]);
    }
  }

  /** A waiter continues at most once, and only when the result is ready, whether it suspended or not. */
  lemma ContinuesOnce(trace: seq<State>, steps: seq<Step>, i: nat, n: Id)
    requires Run(trace, steps) && i < |trace| && n in trace[i].waiters
    ensures var w := trace[i].waiters[n];
            w.continued == (if w.phase == Continued then 1 else 0) && (w.phase == Continued ==> trace[i].word == Ready)
  {
    ReachableInv(trace, steps, i);
    assert WaiterOk(trace[i], n, trace[i].waiters[n]);
  }

  /** The value that stands for a task not started never becomes a link between waiters, nor does the one for ready. */
  lemma LinksAreNodes(trace: seq<State>, steps: seq<Step>, i: nat, n: Id)
    requires Run(trace, steps) && i < |trace| && (InPhase(trace[i], n, Link) || InPhase(trace[i], n, Suspended))
    ensures var next := trace[i].waiters[n].next; next != NotStarted && next != Ready
  {
    var s := trace[i];
    ReachableInv(trace, steps, i);
    assert WaiterOk(s, n, s.waiters[n]);
    if s.waiters[n].phase == Suspended {
      var k :| 0 <= k < |s.list| && s.list[k] == n;
      assert s.waiters[s.list[k]].next == HeadPointer(s.list[k + 1..]);
    }
  }

  /** The task is started while it is suspended at its start, and only pointers to suspended waiters are followed. A
      waiter that is resumed has continued afterwards, and nobody else has changed. */
  lemma ResumesSuspended(trace: seq<State>, steps: seq<Step>, i: nat)
    requires Run(trace, steps) && i < |steps|
    ensures var s, t := trace[i], trace[i + 1];
            match steps[i]
            case StartTask(_) => s.runner == Idle
            case FinalExchange => s.word == Null || (s.word.Node? && InPhase(s, s.word.id, Suspended))
            case ReadNext => InPhase(s, s.runner.cur, Suspended)
            case WakeOne =>
              && InPhase(s, s.runner.cur, Suspended) && InPhase(t, s.runner.cur, Continued)
              && t.waiters.Keys == s.waiters.Keys
              && forall n :: n in s.waiters && n != s.runner.cur ==> t.waiters[n] == s.waiters[n]
            case _ => true
  {
    var s := trace[i];
    ReachableInv(trace, steps, i);
    match steps[i]
    case StartTask(n) => assert WaiterOk(s, n, s.waiters[n]);
    case FinalExchange =>
      if s.list != [] {
        assert WaiterOk(s, s.list[0], s.waiters[s.list[0]]);
      }
    case ReadNext => assert WaiterOk(s, s.list[0], s.waiters[s.list[0]]);
    case WakeOne => assert WaiterOk(s, s.list[0], s.waiters[s.list[0]]);
    case _ =>
  }

  /** No waiter is left behind: whoever is suspended is in the list of a task that has not finished with its waiters,
      so that some step of the task, or of the waiter that starts it, is still to come. */
  lemma NobodyLeftBehind(trace: seq<State>, steps: seq<Step>, i: nat, n: Id)
    requires Run(trace, steps) && i < |trace| && InPhase(trace[i], n, Suspended)
    ensures var s := trace[i];
            n in s.list && s.runner != Done
            && exists step :: Enabled(s, step) && (step.StartTask? || step.Finish? || step.FinalExchange?
                                                   || step.ReadNext? || step.WakeOne?)
  {
    var s := trace[i];
    ReachableInv(trace, steps, i);
    assert WaiterOk(s, n, s.waiters[n]);
    match s.runner
    case Idle =>
      assert WaiterOk(s, s.starter.value, s.waiters[s.starter.value]);
      assert Enabled(s, StartTask(s.starter.value));
    case Running => assert Enabled(s, Finish);
    case Exchanging => assert Enabled(s, FinalExchange);
    case Reading(_) => assert Enabled(s, ReadNext);
    case Waking(_, _) => assert Enabled(s, WakeOne);
    case WakingLast(_) => assert Enabled(s, WakeOne);
    case Done => assert false;
  }

  // ---------------------------------------------------------------- every waiter gets on

  /** The steps of waiter `n` itself. */
  predicate Own(step: Step, n: Id) {
    match step
    case LoadWord(m) => m == n
    case StartSwap(m) => m == n
    case StartTask(m) => m == n
    case ReloadWord(m) => m == n
    case Choose(m) => m == n
    case LinkOk(m) => m == n
    case LinkFail(m) => m == n
    case _ => false
  }

  /** A compare-exchange that fails although the pointer is the expected one. */
  predicate Spurious(s: State, step: Step) {
    step.LinkFail? && InPhase(s, step.n, Link) && s.word == s.waiters[step.n].known
  }

  /** How many steps of its own a waiter makes before it is suspended or has continued, as long as nobody changes the
      pointer. */
  function StepsLeft(word: Pointer, w: Waiter): nat {
    var settled := if word == Ready then 1 else 2;
    match w.phase
    case Load => if word == NotStarted then 6 else 1 + settled
    case Start => if word == NotStarted then 5 else 1 + settled
    case Resume => 2 + settled
    case Reload => 1 + settled
    case Decide => if w.known == Ready then 1 else if w.known == word then 2 else 2 + settled
    case Link => if w.known == word then 1 else 1 + settled
    case Suspended => 0
    case Continued => 0
  }

  /** Each of its own steps brings it one step closer. */
  lemma OwnStepCounts(s: State, step: Step, n: Id)
    requires Inv(s) && Enabled(s, step) && n in s.waiters && Own(step, n) && !Spurious(s, step)
    ensures var t := Do(s, step); n in t.waiters && StepsLeft(t.word, t.waiters[n]) == StepsLeft(s.word, s.waiters[n]) - 1
  {
    assert WaiterOk(s, n, s.waiters[n]);
  }

  /** Steps of others do not set it back once the result is ready. */
  lemma OtherStepStays(s: State, step: Step, n: Id)
    requires Inv(s) && Enabled(s, step) && n in s.waiters && !Own(step, n) && s.word == Ready
    ensures var t := Do(s, step);
            && t.word == Ready && n in t.waiters
            && (s.waiters[n].phase != Suspended ==> t.waiters[n] == s.waiters[n])
  {
    StaysReady(s, step);
    assert WaiterOk(s, n, s.waiters[n]);
  }

  /** A waiter that is on its way can always make a step of its own that counts. */
  lemma OwnStepThere(s: State, n: Id)
    requires Inv(s) && n in s.waiters && s.waiters[n].phase != Suspended && s.waiters[n].phase != Continued
    ensures exists step :: Own(step, n) && Enabled(s, step) && !Spurious(s, step)
  {
    match s.waiters[n].phase
    case Load => assert Enabled(s, LoadWord(n));
    case Start => assert Enabled(s, StartSwap(n));
    case Resume => assert Enabled(s, StartTask(n));
    case Reload => assert Enabled(s, ReloadWord(n));
    case Decide => assert Enabled(s, Choose(n));
    case Link =>
      if s.word == s.waiters[n].known {
        assert Enabled(s, LinkOk(n));
      } else {
        assert Enabled(s, LinkFail(n)) && !Spurious(s, LinkFail(n));
      }
  }

  /** How many of the steps from `i` up to `j` are its own. */
  function Taken(steps: seq<Step>, n: Id, i: nat, j: nat): nat
    requires i <= j <= |steps|
    decreases j
  {
    if i == j then 0 else Taken(steps, n, i, j - 1) + if Own(steps[j - 1], n) then 1 else 0
  }

  /** Once the result is ready a waiter that is not suspended continues with its third step at the latest, and not
      before it has made all the steps that were left; until then it can make one. */
  lemma {:induction false} ReadyContinues(trace: seq<State>, steps: seq<Step>, i: nat, j: nat, n: Id)
    requires Run(trace, steps) && i <= j < |trace| && trace[i].word == Ready
    requires n in trace[i].waiters && trace[i].waiters[n].phase != Suspended
    ensures n in trace[j].waiters && trace[j].word == Ready && trace[j].waiters[n].phase != Suspended
    ensures var left := StepsLeft(Ready, trace[i].waiters[n]);
            && left <= 3 && Taken(steps, n, i, j) <= left
            && StepsLeft(Ready, trace[j].waiters[n]) == left - Taken(steps, n, i, j)
            && (Taken(steps, n, i, j) == left <==> trace[j].waiters[n].phase == Continued)
    ensures trace[j].waiters[n].phase == Continued <==> trace[j].waiters[n].continued == 1
    ensures trace[j].waiters[n].phase == Continued || exists step :: Own(step, n) && Enabled(trace[j], step)
    decreases j
  {
    hide Inv, Do, Enabled, StepsLeft;
    ReachableInv(trace, steps, j);
    if i < j {
      ReadyContinues(trace, steps, i, j - 1, n);
      ReachableInv(trace, steps, j - 1);
      ReadyStep(trace[j - 1], steps[j - 1], n);
    }
    ReadyState(trace[j], n);
  }

  lemma ReadyState(s: State, n: Id)
    requires Inv(s) && s.word == Ready && n in s.waiters && s.waiters[n].phase != Suspended
    ensures StepsLeft(Ready, s.waiters[n]) <= 3
    ensures StepsLeft(Ready, s.waiters[n]) == 0 <==> s.waiters[n].phase == Continued
    ensures s.waiters[n].phase == Continued <==> s.waiters[n].continued == 1
    ensures s.waiters[n].phase == Continued || exists step :: Own(step, n) && Enabled(s, step)
  {
    assert WaiterOk(s, n, s.waiters[n]);
    if s.waiters[n].phase != Continued {
      OwnStepThere(s, n);
    }
  }

  lemma ReadyStep(s: State, step: Step, n: Id)
    requires Inv(s) && Enabled(s, step) && s.word == Ready && n in s.waiters && s.waiters[n].phase != Suspended
    ensures var t := Do(s, step);
            && t.word == Ready && n in t.waiters && t.waiters[n].phase != Suspended
            && StepsLeft(Ready, t.waiters[n]) == StepsLeft(Ready, s.waiters[n]) - if Own(step, n) then 1 else 0
  {
    assert WaiterOk(s, n, s.waiters[n]);
    StaysReady(s, step);
    if Own(step, n) {
      OwnStepCounts(s, step, n);
    } else {
      OtherStepStays(s, step, n);
    }
  }

  /** The task itself: how many steps it makes from its start to the last waiter in the list. */
  function RunnerLeft(s: State): nat {
    match s.runner
    case Idle => 3 + 2 * |s.list|
    case Running => 2 + 2 * |s.list|
    case Exchanging => 1 + 2 * |s.list|
    case Reading(_) => 2 * |s.list|
    case Waking(_, _) => 2 * |s.list| - if |s.list| > 0 then 1 else 0
    case WakingLast(_) => 1
    case Done => 0
  }

  predicate OfTask(step: Step) {
    step.Finish? || step.FinalExchange? || step.ReadNext? || step.WakeOne?
  }

  /** Each of its steps brings it one step closer to having resumed everybody, and the steps of waiters do not set it
      back, but for one more waiter to resume while it is running. */
  lemma TaskStepCounts(s: State, step: Step)
    requires Inv(s) && Enabled(s, step)
    ensures var t := Do(s, step);
            RunnerLeft(t) == if OfTask(step) || step.StartTask? then RunnerLeft(s) - 1
                             else if step.LinkOk? then RunnerLeft(s) + 2 else RunnerLeft(s)
  {
    hide DoReadNext, DoWake, Linked;
    match step
    case StartTask(n) => assert WaiterOk(s, n, s.waiters[n]);
    case LinkOk(n) => assert WaiterOk(s, n, s.waiters[n]);
    case ReadNext => ReadingCounts(s);
    case WakeOne => WakingCounts(s);
    case _ =>
  }

  lemma ReadingCounts(s: State)
    requires Inv(s) && Enabled(s, ReadNext)
    ensures RunnerLeft(DoReadNext(s)) == RunnerLeft(s) - 1
  {
    assert s.waiters[s.list[0]].next == HeadPointer(s.list[1..]);
    assert WaiterOk(s, s.list[0], s.waiters[s.list[0]]);
  }

  lemma WakingCounts(s: State)
    requires Inv(s) && Enabled(s, WakeOne)
    ensures RunnerLeft(DoWake(s)) == RunnerLeft(s) - 1
  {
    assert s.list[0] in s.waiters;
    assert WaiterOk(s, s.runner.cur, s.waiters[s.runner.cur]);
  }

  /** When the task has done its last step and no waiter can make one of its own, everybody has continued, once. */
  lemma EverybodyContinues(trace: seq<State>, steps: seq<Step>, i: nat, n: Id)
    requires Run(trace, steps) && i < |trace| && n in trace[i].waiters && trace[i].runner == Done
    requires forall step :: Own(step, n) ==> !Enabled(trace[i], step)
    ensures trace[i].waiters[n].phase == Continued && trace[i].waiters[n].continued == 1
  {
    ReachableInv(trace, steps, i);
    assert WaiterOk(trace[i], n, trace[i].waiters[n]);
    if trace[i].waiters[n].phase != Continued {
      OwnStepThere(trace[i], n);
    }
  }
}
