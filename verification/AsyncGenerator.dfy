/** The hand-off between the producer and the consumer of an asynchronous generator, one atomic access to the state
    word per step. A call of `resume` makes the other coroutine runnable and returns at any time after that: the other
    one may suspend first or carry on elsewhere. */
module AsyncGenerator {
  import opened Lists

  /** The state word, named after what the value and the side that may suspend are doing. */
  datatype Word = NotReadyActive | NotReadySuspended | ReadyActive | ReadySuspended | Cancelled

  datatype Producer =
    | Asleep       // suspended, at its start, at a yield or at its end
    | Running      // between two suspension points
    | Load1        // internal_yield_value: about to load the word
    | Store1       // the consumer is suspended: about to store ReadyActive
    | Resume1
    | Load2        // the consumer has been resumed: about to load the word again
    | Swap1        // await_suspend: about to exchange NotReadyActive for ReadySuspended
    | Store2
    | Resume2
    | Load3
    | Swap2        // about to exchange ReadyActive for ReadySuspended
    | Destroying   // about to destroy its own frame
    | Dead

  datatype Consumer =
    | Active       // between two advance operations
    | AdvLoad      // advance constructor: about to load the word
    | AdvStore
    | AdvResume
    | AdvReload
    | Made(initial: Word)      // the operation has been constructed, but not awaited
    | Register(initial: Word)  // await_suspend: about to write m_consumerCoroutine
    | SwapA        // about to exchange ReadyActive for NotReadySuspended
    | StoreB
    | ResumeB
    | LoadB
    | SwapC        // about to exchange NotReadyActive for NotReadySuspended
    | Sleeping
    | Observe      // await_resume: about to read m_currentValue
    | DestroyFrame
    | Gone

  /** `produced` and `done` are what the producer has yielded, `seen` and `finished` what the consumer has got.
      `broken` records a failed assertion, a resumed coroutine that was not suspended, or an access to a destroyed
      frame. */
  datatype State<T> = State(
    word: Word, value: Option<T>, registered: bool,
    producer: Producer, consumer: Consumer,
    produced: seq<T>, done: bool, seen: seq<T>, finished: bool,
    destroyed: nat, broken: bool)

  function Initial<T>(): State<T> {
    State(ReadySuspended, None, false, Asleep, Active, [], false, [], false, 0, false)
  }

  datatype Step<T> =
    | Yield(value: Option<T>)  // co_yield, or the end of the body for None
    | ProducerStep
    | Advance                  // begin() or operator++()
    | Await
    | ConsumerStep
    | Destroy                  // ~async_generator()

  /** The consumer does not ask for more than the end, and destroys the generator once, while it is not suspended in
      an operation on it. */
  predicate Enabled<T>(s: State<T>, step: Step<T>) {
    match step
    case Yield(_) => s.producer == Running
    case ProducerStep => s.producer !in {Asleep, Running, Dead}
    case Advance => s.consumer == Active && !s.finished
    case Await => s.consumer.Made?
    case ConsumerStep => s.consumer !in {Active, Sleeping, Gone} && !s.consumer.Made?
    case Destroy => s.consumer == Active || s.consumer.Made?
  }

  function Broken<T>(s: State<T>): State<T> {
    s.(broken := true)
  }

  // ---------------------------------------------------------------- the producer

  function DoYield<T>(s: State<T>, value: Option<T>): State<T> {
    s.(value := value, producer := Load1,
       produced := if value.Some? then s.produced + [value.value] else s.produced, done := value.None?)
  }

  /** The producer goes on without suspending, which it must not do at its end. */
  function Continue<T>(s: State<T>): State<T> {
    if s.done then Broken(s) else s.(producer := Running)
  }

  /** await_ready, and the branch of await_suspend that the state known leads to. */
  function Awaited<T>(s: State<T>, known: Word): State<T> {
    match known
    case NotReadySuspended => Continue(s)
    case NotReadyActive => s.(producer := Swap1)
    case ReadyActive => s.(producer := Swap2)
    case Cancelled => s.(producer := Destroying)
    case ReadySuspended => Broken(s)
  }

  function WakeConsumer<T>(s: State<T>, next: Producer): State<T> {
    if s.consumer == Sleeping && s.registered then s.(consumer := Observe, producer := next) else Broken(s)
  }

  function DoProducer<T>(s: State<T>): State<T> {
    match s.producer
    case Load1 =>
      if s.word == ReadyActive || s.word == ReadySuspended then Broken(s)
      else if s.word == NotReadySuspended then s.(producer := Store1)
      else Awaited(s, s.word)
    case Store1 => s.(word := ReadyActive, producer := Resume1)
    case Resume1 => WakeConsumer(s, Load2)
    case Load2 => Awaited(s, s.word)
    case Swap1 =>
      if s.word == NotReadyActive then s.(word := ReadySuspended, producer := Asleep)
      else if s.word == NotReadySuspended then s.(producer := Store2)
      else if s.word == Cancelled then s.(producer := Destroying)
      else if s.word == ReadyActive then s.(producer := Swap2)
      else Broken(s)
    case Store2 => s.(word := ReadyActive, producer := Resume2)
    case Resume2 => WakeConsumer(s, Load3)
    case Load3 =>
      if s.word == NotReadySuspended then Continue(s)
      else if s.word == ReadyActive then s.(producer := Swap2)
      else if s.word == Cancelled then s.(producer := Destroying)
      else Broken(s)
    case Swap2 =>
      if s.word == ReadyActive then s.(word := ReadySuspended, producer := Asleep)
      else if s.word == NotReadySuspended then Continue(s)
      else if s.word == Cancelled then s.(producer := Destroying)
      else Broken(s)
    case Destroying => s.(producer := Dead, destroyed := s.destroyed + 1)
    case _ => s
  }

  // ---------------------------------------------------------------- the consumer

  function WakeProducer<T>(s: State<T>, next: Consumer): State<T> {
    if s.producer == Asleep && !s.done then s.(producer := Running, consumer := next) else Broken(s)
  }

  function DoAwait<T>(s: State<T>): State<T>
    requires s.consumer.Made?
  {
    s.(consumer := if s.consumer.initial == ReadySuspended then Observe else Register(s.consumer.initial))
  }

  function DoRegister<T>(s: State<T>, initial: Word): State<T> {
    if initial == ReadyActive then s.(registered := true, consumer := SwapA)
    else if initial == NotReadyActive then s.(registered := true, consumer := SwapC)
    else Broken(s)
  }

  function DoObserve<T>(s: State<T>): State<T> {
    if s.value.None? then s.(finished := true, consumer := Active)
    else s.(seen := s.seen + [s.value.value], consumer := Active)
  }

  function DoDestroy<T>(s: State<T>): State<T> {
    if s.word == NotReadySuspended || s.word == Cancelled then Broken(s)
    else s.(word := Cancelled, consumer := if s.word == ReadySuspended then DestroyFrame else Gone)
  }

  function DoConsumer<T>(s: State<T>): State<T> {
    match s.consumer
    case AdvLoad =>
      s.(consumer := if s.word == ReadySuspended then AdvStore else Made(s.word))
    case AdvStore => s.(word := NotReadyActive, consumer := AdvResume)
    case AdvResume => WakeProducer(s, AdvReload)
    case AdvReload => s.(consumer := Made(s.word))
    case Register(initial) => DoRegister(s, initial)
    case SwapA =>
      if s.word == ReadyActive then s.(word := NotReadySuspended, consumer := Sleeping)
      else if s.word == ReadySuspended then s.(consumer := StoreB)
      else Broken(s)
    case StoreB => s.(word := NotReadyActive, consumer := ResumeB)
    case ResumeB => WakeProducer(s, LoadB)
    case LoadB =>
      if s.word == ReadySuspended then s.(consumer := Observe)
      else if s.word == NotReadyActive then s.(consumer := SwapC)
      else Broken(s)
    case SwapC =>
      if s.word == NotReadyActive then s.(word := NotReadySuspended, consumer := Sleeping)
      else s.(consumer := Observe)
    case Observe => DoObserve(s)
    case DestroyFrame =>
      if s.producer == Asleep then s.(producer := Dead, consumer := Gone, destroyed := s.destroyed + 1) else Broken(s)
    case _ => s
  }

  /** An access to the promise after its frame has been destroyed breaks the state, too. */
  function Do<T>(s: State<T>, step: Step<T>): State<T>
    requires Enabled(s, step)
  {
    if s.destroyed > 0 then Broken(s)
    else
      match step
      case Yield(value) => DoYield(s, value)
      case ProducerStep => DoProducer(s)
      case Advance => s.(consumer := AdvLoad)
      case Await => DoAwait(s)
      case ConsumerStep => DoConsumer(s)
      case Destroy => DoDestroy(s)
  }

  ghost predicate Run<T>(trace: seq<State<T>>, steps: seq<Step<T>>) {
    && |trace| == |steps| + 1 && trace[0] == Initial()
    && forall i :: 0 <= i < |steps| ==> Enabled(trace[i], steps[i]) && trace[i + 1] == Do(trace[i], steps[i])
  }

  // ---------------------------------------------------------------- the invariant

  /** Everything yielded has been observed, or all but the last. */
  ghost predicate Caught<T>(s: State<T>) {
    s.seen == s.produced && s.finished == s.done
  }

  ghost predicate Pending<T>(s: State<T>) {
    && !s.finished
    && if s.done then s.value.None? && s.seen == s.produced
       else s.value.Some? && s.produced == s.seen + [s.value.value]
  }

  /** The producer stays suspended with a value. */
  ghost predicate WhenReadySuspended<T>(s: State<T>) {
    && s.producer == Asleep
    && match s.consumer
       case Active => Caught(s)
       case AdvLoad => Caught(s) && !s.done
       case AdvStore => Caught(s) && !s.done
       case StoreB => Caught(s) && !s.done
       case SwapA => Caught(s) && !s.done
       case AdvReload => Pending(s)
       case SwapC => Pending(s)
       case LoadB => Pending(s)
       case Observe => Pending(s)
       case Made(i) => OperationKnows(s, i)
       case Register(i) => OperationKnows(s, i) && i != ReadySuspended
       case _ => false
  }

  ghost predicate OperationKnows<T>(s: State<T>, i: Word) {
    if i == ReadyActive then Caught(s) && !s.done else (i == ReadySuspended || i == NotReadyActive) && Pending(s)
  }

  /** The producer works on the next value, or has it and is about to find out about the consumer. */
  ghost predicate Working<T>(s: State<T>) {
    match s.producer
    case Running => Caught(s) && !s.done
    case Load1 => Pending(s)
    case Swap1 => Pending(s)
    case _ => false
  }

  ghost predicate WhenNotReadyActive<T>(s: State<T>) {
    match s.consumer
    case AdvResume => s.producer == Asleep && Caught(s) && !s.done
    case ResumeB => s.producer == Asleep && Caught(s) && !s.done
    case AdvReload => Working(s)
    case LoadB => Working(s)
    case SwapC => Working(s)
    case Made(i) => i == NotReadyActive && Working(s)
    case Register(i) => i == NotReadyActive && Working(s)
    case _ => false
  }

  /** The consumer is suspended; the producer knows, or will find out before it suspends. */
  ghost predicate WhenNotReadySuspended<T>(s: State<T>) {
    && s.consumer == Sleeping && s.registered
    && match s.producer
       case Store1 => Pending(s)
       case Store2 => Pending(s)
       case Load2 => Caught(s) && !s.done
       case Load3 => Caught(s) && !s.done
       case Swap2 => Caught(s) && !s.done
       case _ => Working(s)
  }

  /** The producer has resumed the consumer, or is about to. */
  ghost predicate WhenReadyActive<T>(s: State<T>) {
    if s.producer == Resume1 || s.producer == Resume2 then s.consumer == Sleeping && s.registered && Pending(s)
    else
      && (s.producer == Load2 || s.producer == Load3 || s.producer == Swap2)
      && match s.consumer
         case Observe => Pending(s)
         case Active => Caught(s)
         case AdvLoad => Caught(s) && !s.done
         case SwapA => Caught(s) && !s.done
         case Made(i) => i == ReadyActive && Caught(s) && !s.done
         case Register(i) => i == ReadyActive && Caught(s) && !s.done
         case _ => false
  }

  ghost predicate WhenCancelled<T>(s: State<T>) {
    match s.consumer
    case DestroyFrame => s.producer == Asleep && s.destroyed == 0
    case Gone =>
      && s.producer in {Running, Load1, Load2, Load3, Swap1, Swap2, Destroying, Dead}
      && s.destroyed == if s.producer == Dead then 1 else 0
    case _ => false
  }

  ghost predicate Inv<T>(s: State<T>) {
    && !s.broken && s.seen <= s.produced && (s.finished ==> s.done)
    && (s.word != Cancelled ==> s.destroyed == 0)
    && (s.producer == Running ==> !s.done)
    && (s.consumer in {SwapA, StoreB, ResumeB, LoadB, SwapC, Sleeping} ==> s.registered)
    && (s.consumer == Active && !s.finished && s.seen != [] ==> s.value == Some(s.seen[|s.seen| - 1]))
    && match s.word
       case ReadySuspended => WhenReadySuspended(s)
       case NotReadyActive => WhenNotReadyActive(s)
       case NotReadySuspended => WhenNotReadySuspended(s)
       case ReadyActive => WhenReadyActive(s)
       case Cancelled => WhenCancelled(s)
  }

  lemma ProducerKeepsCaught<T>(s: State<T>)
    requires Inv(s) && Enabled(s, ProducerStep)
    requires s.producer == Load2 || s.producer == Load3 || s.producer == Swap2 || s.producer == Destroying
    ensures Inv(DoProducer(s))
  {
  }

  lemma ProducerKeepsPending<T>(s: State<T>)
    requires Inv(s) && Enabled(s, ProducerStep)
    requires s.producer == Load1 || s.producer == Swap1 || s.producer == Store1 || s.producer == Store2
             || s.producer == Resume1 || s.producer == Resume2
    ensures Inv(DoProducer(s))
  {
    hide Enabled;
  }

  lemma ConsumerKeepsSwap<T>(s: State<T>)
    requires Inv(s) && (s.consumer == SwapA || s.consumer == SwapC || s.consumer == StoreB || s.consumer == ResumeB)
    ensures Inv(DoConsumer(s))
  {
  }

  lemma ConsumerKeepsLoad<T>(s: State<T>)
    requires Inv(s) && s.consumer in {AdvLoad, AdvStore, AdvResume, AdvReload, LoadB, Observe, DestroyFrame}
    ensures Inv(DoConsumer(s))
  {
    hide DoProducer;
  }

  lemma RegisterKeeps<T>(s: State<T>)
    requires Inv(s) && s.consumer.Register?
    ensures Inv(DoConsumer(s))
  {
  }

  lemma AdvanceKeeps<T>(s: State<T>)
    requires Inv(s) && Enabled(s, Advance)
    ensures Inv(s.(consumer := AdvLoad))
  {
  }

  lemma AwaitKeeps<T>(s: State<T>)
    requires Inv(s) && s.consumer.Made?
    ensures Inv(DoAwait(s))
  {
  }

  lemma DestroyKeeps<T>(s: State<T>)
    requires Inv(s) && Enabled(s, Destroy)
    ensures Inv(DoDestroy(s))
  {
  }

  lemma YieldKeeps<T>(s: State<T>, value: Option<T>)
    requires Inv(s) && s.producer == Running
    ensures Inv(DoYield(s, value))
  {
  }

  /** Once the frame is gone, neither side takes another step. */
  lemma NothingAfter<T>(s: State<T>, step: Step<T>)
    requires Inv(s) && Enabled(s, step)
    ensures s.destroyed == 0
  {
  }

  lemma StepKeeps<T>(s: State<T>, step: Step<T>)
    requires Inv(s) && Enabled(s, step)
    ensures Inv(Do(s, step))
  {
    hide Inv;
    NothingAfter(s, step);
    match step
    case Yield(value) => YieldKeeps(s, value);
    case ProducerStep =>
      if s.producer in {Load2, Load3, Swap2, Destroying} {
        ProducerKeepsCaught(s);
      } else {
        ProducerKeepsPending(s);
      }
    case Advance => AdvanceKeeps(s);
    case Await => AwaitKeeps(s);
    case ConsumerStep =>
      if s.consumer.Register? {
        RegisterKeeps(s);
      } else if s.consumer in {SwapA, SwapC, StoreB, ResumeB} {
        ConsumerKeepsSwap(s);
      } else {
        ConsumerKeepsLoad(s);
      }
    case Destroy => DestroyKeeps(s);
  }

  lemma {:induction false} ReachableInv<T>(trace: seq<State<T>>, steps: seq<Step<T>>, i: nat)
    requires Run(trace, steps) && i < |trace|
    ensures Inv(trace[i])
  {
    if i > 0 {
      ReachableInv(trace, steps, i - 1);
      StepKeeps(trace[i - 1], steps[i - 1]);
    }
  }

  // ---------------------------------------------------------------- what holds in every run

  /** No assertion fails, only suspended coroutines are resumed, and nothing touches a destroyed frame. */
  lemma NeverBroken<T>(trace: seq<State<T>>, steps: seq<Step<T>>, i: nat)
    requires Run(trace, steps) && i < |trace|
    ensures !trace[i].broken
    ensures i < |steps| ==> trace[i].destroyed == 0
  {
    ReachableInv(trace, steps, i);
    if i < |steps| {
      NothingAfter(trace[i], steps[i]);
    }
  }

  /** What this means, step by step: whoever is resumed is suspended, and the producer not at its end; a frame that the
      consumer destroys is suspended; and the word is one that the code expects. */
  lemma OnlySleepersResumed<T>(trace: seq<State<T>>, steps: seq<Step<T>>, i: nat)
    requires Run(trace, steps) && i < |steps|
    ensures var s := trace[i];
            match steps[i]
            case ProducerStep =>
              && (s.producer == Resume1 || s.producer == Resume2 ==> s.consumer == Sleeping && s.registered)
              && (s.producer == Load1 ==> s.word != ReadyActive && s.word != ReadySuspended)
              && (s.producer in {Load2, Load3, Swap1, Swap2} ==> s.word != ReadySuspended)
              && (s.producer == Load3 || s.producer == Swap2 ==> s.word != NotReadyActive)
              && (s.done ==> trace[i + 1].producer != Running)
            case ConsumerStep =>
              && (s.consumer == AdvResume || s.consumer == ResumeB ==> s.producer == Asleep && !s.done)
              && (s.consumer == DestroyFrame ==> s.producer == Asleep)
              && (s.consumer.Register? ==> s.consumer.initial == ReadyActive || s.consumer.initial == NotReadyActive)
              && (s.consumer == SwapA ==> s.word == ReadyActive || s.word == ReadySuspended)
              && (s.consumer == LoadB ==> s.word == ReadySuspended || s.word == NotReadyActive)
            case Destroy => s.word != NotReadySuspended && s.word != Cancelled
            case _ => true
  {
    hide Do, DoConsumer, DoProducer;
    ReachableInv(trace, steps, i);
    NothingAfter(trace[i], steps[i]);
    if steps[i].ProducerStep? && trace[i].done {
      EndedStops(trace[i]);
    }
  }

  lemma EndedStops<T>(s: State<T>)
    requires Inv(s) && Enabled(s, ProducerStep) && s.done
    ensures Do(s, ProducerStep).producer != Running
  {
    hide DoConsumer;
  }

  /** The consumer sees what the producer yielded, in order and without repetition. Whenever it is active it has seen
      everything yielded so far, including whether that was the end, and its iterator still shows the last value. */
  lemma SeenInOrder<T>(trace: seq<State<T>>, steps: seq<Step<T>>, i: nat)
    requires Run(trace, steps) && i < |trace|
    ensures var s := trace[i];
            && s.seen <= s.produced
            && (s.consumer == Active ==>
                  s.seen == s.produced && s.finished == s.done
                  && (!s.finished && s.seen != [] ==> s.value == Some(s.seen[|s.seen| - 1])))
  {
    ReachableInv(trace, steps, i);
  }

  /** Never do both sides sleep, and a side that sleeps will be resumed: a suspended consumer has its handle registered
      and faces a producer on its way to a yield or to `resume`; a suspended producer faces an awake consumer. */
  lemma NoLostWakeup<T>(trace: seq<State<T>>, steps: seq<Step<T>>, i: nat)
    requires Run(trace, steps) && i < |trace| && trace[i].consumer == Sleeping
    ensures var s := trace[i];
            s.registered && s.producer != Asleep && s.producer != Dead
            && (s.producer == Running || Enabled(s, ProducerStep))
  {
    ReachableInv(trace, steps, i);
  }

  /** The frame is destroyed at most once: not before the generator is, and by then, unless the producer is still on
      its way to a suspension point, exactly once. */
  lemma DestroyedOnce<T>(trace: seq<State<T>>, steps: seq<Step<T>>, i: nat)
    requires Run(trace, steps) && i < |trace|
    ensures var s := trace[i];
            && s.destroyed <= 1 && (s.destroyed == 1 <==> s.producer == Dead)
            && (s.destroyed == 1 ==> s.consumer == Gone)
            && !(s.consumer == Gone && s.producer == Asleep)
  {
    ReachableInv(trace, steps, i);
  }

  /** How many steps a producer that has come to a yield needs until it is destroyed, once the generator is gone. */
  function ToGo(p: Producer): nat {
    if p == Dead then 0 else if p == Destroying then 1 else 2
  }

  lemma OneStepNearer<T>(s: State<T>, step: Step<T>)
    requires Inv(s) && s.consumer == Gone && s.producer != Dead && s.producer != Running
    ensures Enabled(s, step) <==> step.ProducerStep?
    ensures Enabled(s, step) ==>
              var n := Do(s, step); n.consumer == Gone && ToGo(n.producer) == ToGo(s.producer) - 1 && n.producer != Running
  {
  }

  /** When the generator is gone and the producer has reached its next suspension point, the frame is destroyed by
      exactly the next one or two steps, and there are no other steps. */
  lemma {:induction false} FrameIsDestroyed<T>(trace: seq<State<T>>, steps: seq<Step<T>>, i: nat)
    requires Run(trace, steps) && i < |trace| && trace[i].consumer == Gone && trace[i].producer != Running
    ensures i + ToGo(trace[i].producer) < |trace| ==> trace[i + ToGo(trace[i].producer)].destroyed == 1
    ensures |trace| <= i + ToGo(trace[i].producer) + 1
    decreases |trace| - i
  {
    ReachableInv(trace, steps, i);
    if i < |steps| {
      NothingAfter(trace[i], steps[i]);
      OneStepNearer(trace[i], steps[i]);
      FrameIsDestroyed(trace, steps, i + 1);
    }
  }

  // ---------------------------------------------------------------- both sides get on

  /** How many steps a side has before it until it waits for its caller or for the other side. */
  function ProducerLeft(p: Producer): nat {
    match p
    case Asleep => 0
    case Running => 0
    case Dead => 0
    case Destroying => 1
    case Swap2 => 2
    case Load3 => 3
    case Resume2 => 5
    case Store2 => 6
    case Swap1 => 7
    case Load2 => 8
    case Resume1 => 10
    case Store1 => 11
    case Load1 => 12
  }

  function ConsumerLeft(c: Consumer): nat {
    match c
    case Active => 0
    case Sleeping => 0
    case Gone => 0
    case Observe => 1
    case DestroyFrame => 1
    case SwapC => 2
    case LoadB => 3
    case ResumeB => 4
    case StoreB => 5
    case SwapA => 6
    case Register(_) => 7
    case Made(_) => 8
    case AdvReload => 9
    case AdvResume => 10
    case AdvStore => 11
    case AdvLoad => 12
  }

  function Left<T>(s: State<T>): nat {
    ProducerLeft(s.producer) + ConsumerLeft(s.consumer)
  }

  predicate Inner<T>(step: Step<T>) {
    step.ProducerStep? || step.ConsumerStep? || step.Await?
  }

  lemma LeftBound<T>(s: State<T>)
    ensures Left(s) <= 24
  {
  }

  lemma StepCounts<T>(s: State<T>, step: Step<T>)
    requires Inv(s) && Enabled(s, step) && Inner(step)
    ensures Left(Do(s, step)) < Left(s)
  {
    NothingAfter(s, step);
    if step.ProducerStep? {
      ProducerCounts(s);
    } else if step.ConsumerStep? {
      ConsumerCounts(s);
    }
  }

  lemma ProducerCounts<T>(s: State<T>)
    requires Inv(s) && Enabled(s, ProducerStep)
    ensures Left(DoProducer(s)) < Left(s)
  {
    hide DoProducer, Left;
    if s.producer in {Load1, Store1, Resume1, Load2} {
      YieldCounts(s);
    } else {
      SuspendCounts(s);
    }
  }

  lemma YieldCounts<T>(s: State<T>)
    requires Inv(s) && s.producer in {Load1, Store1, Resume1, Load2}
    ensures Left(DoProducer(s)) < Left(s)
  {
    hide Caught, Pending;
  }

  lemma SuspendCounts<T>(s: State<T>)
    requires Inv(s) && s.producer in {Swap1, Store2, Resume2, Load3, Swap2, Destroying}
    ensures Left(DoProducer(s)) < Left(s)
  {
    hide Caught, Pending;
  }

  lemma ConsumerCounts<T>(s: State<T>)
    requires Inv(s) && Enabled(s, ConsumerStep)
    ensures Left(DoConsumer(s)) < Left(s)
  {
    hide DoProducer, Left, Caught, Pending;
    if s.consumer.Register? {
      RegisterCounts(s);
    } else if s.consumer in {AdvLoad, AdvStore, AdvResume, AdvReload} {
      AdvanceCounts(s);
    } else {
      AwaitCounts(s);
    }
  }

  lemma RegisterCounts<T>(s: State<T>)
    requires Inv(s) && s.consumer.Register?
    ensures Left(DoConsumer(s)) < Left(s)
  {
    hide Caught, Pending;
  }

  lemma AdvanceCounts<T>(s: State<T>)
    requires Inv(s) && s.consumer in {AdvLoad, AdvStore, AdvResume, AdvReload}
    ensures Left(DoConsumer(s)) < Left(s)
  {
    hide Caught, Pending, DoRegister, DoObserve;
  }

  lemma AwaitCounts<T>(s: State<T>)
    requires Inv(s) && s.consumer in {SwapA, StoreB, ResumeB, LoadB, SwapC, Observe, DestroyFrame}
    ensures Left(DoConsumer(s)) < Left(s)
  {
    hide Caught, Pending, DoRegister;
  }

  /** Neither side keeps the other busy: as long as nothing is yielded, the consumer does not advance again, and the
      generator is not destroyed, there are at most as many steps as were left, and that is at most 24. */
  lemma {:induction false} InnerStepsAreFew<T>(trace: seq<State<T>>, steps: seq<Step<T>>, i: nat, j: nat)
    requires Run(trace, steps) && i <= j < |trace| && forall k :: i <= k < j ==> Inner(steps[k])
    ensures j - i + Left(trace[j]) <= Left(trace[i]) <= 24
    decreases j
  {
    hide Inv, Enabled, Do, Left;
    LeftBound(trace[i]);
    if i < j {
      InnerStepsAreFew(trace, steps, i, j - 1);
      ReachableInv(trace, steps, j - 1);
      StepCounts(trace[j - 1], steps[j - 1]);
    }
  }

  /** When no such step is left, a consumer that sleeps has a producer at work on a value it has not got yet; a producer
      that sleeps has a consumer that is active, and has everything; and when the generator is gone and its producer is
      not at work, the frame is destroyed. */
  lemma RestMeansDelivered<T>(trace: seq<State<T>>, steps: seq<Step<T>>, i: nat)
    requires Run(trace, steps) && i < |trace|
    requires forall step :: Inner(step) ==> !Enabled(trace[i], step)
    ensures var s := trace[i];
            && (s.consumer == Sleeping ==> s.producer == Running && s.seen == s.produced && !s.done)
            && (s.producer == Asleep <==> s.consumer == Active)
            && (s.consumer == Active ==> s.seen == s.produced && s.finished == s.done)
            && (s.consumer == Gone ==> s.producer == Running || s.destroyed == 1)
  {
    ReachableInv(trace, steps, i);
    assert !Enabled(trace[i], ProducerStep) && !Enabled(trace[i], ConsumerStep) && !Enabled(trace[i], Await);
  }

  // ---------------------------------------------------------------- each call gives one value

  /** How often the consumer has called `begin` or `++`. */
  function Advances<T>(steps: seq<Step<T>>): nat {
    if steps == [] then 0
    else Advances(steps[..|steps| - 1]) + (if steps[|steps| - 1].Advance? then 1 else 0)
  }

  /** How many of these calls have been answered, with a value or the end. */
  function Answered<T>(s: State<T>): nat {
    |s.seen| + if s.finished then 1 else 0
  }

  /** While the consumer is active each call has been answered by exactly one value or by the end, and while it is in one
      all others have. */
  lemma {:induction false} OneAnswerEach<T>(trace: seq<State<T>>, steps: seq<Step<T>>, i: nat)
    requires Run(trace, steps) && i < |trace| && trace[i].consumer !in {DestroyFrame, Gone}
    ensures Advances(steps[..i]) == Answered(trace[i]) + if trace[i].consumer == Active then 0 else 1
  {
    if i > 0 {
      hide Enabled, Do, Inv;
      ReachableInv(trace, steps, i - 1);
      StepAnswers(trace[i - 1], steps[i - 1]);
      OneAnswerEach(trace, steps, i - 1);
      assert steps[..i][..i - 1] == steps[..i - 1];
    }
  }

  lemma StepAnswers<T>(s: State<T>, step: Step<T>)
    requires Inv(s) && Enabled(s, step)
    ensures var t := Do(s, step);
            t.consumer !in {DestroyFrame, Gone} ==>
              && s.consumer !in {DestroyFrame, Gone}
              && Answered(t) + (if t.consumer == Active then 0 else 1)
                 == Answered(s) + (if s.consumer == Active then 0 else 1) + (if step.Advance? then 1 else 0)
  {
    NothingAfter(s, step);
    if step.ProducerStep? {
      ProducerAnswers(s);
    }
  }

  lemma ProducerAnswers<T>(s: State<T>)
    requires Inv(s) && Enabled(s, ProducerStep)
    ensures var t := DoProducer(s);
            Answered(t) == Answered(s) && (t.consumer == Active <==> s.consumer == Active)
            && (s.consumer in {DestroyFrame, Gone} ==> t.consumer in {DestroyFrame, Gone})
  {
    hide DoConsumer;
  }

  // ---------------------------------------------------------------- what is yielded

  /** The values yielded by these steps. */
  function Yielded<T>(steps: seq<Step<T>>): seq<T> {
    if steps == [] then []
    else
      var step := steps[|steps| - 1];
      Yielded(steps[..|steps| - 1]) + if step.Yield? && step.value.Some? then [step.value.value] else []
  }

  /** What counts as produced is what has been yielded, and the producer is done when its body has ended. */
  lemma {:induction false} ProducedIsYielded<T>(trace: seq<State<T>>, steps: seq<Step<T>>, i: nat)
    requires Run(trace, steps) && i < |trace|
    ensures trace[i].produced == Yielded(steps[..i])
    ensures trace[i].done <==> Yield(None) in steps[..i]
  {
    if i > 0 {
      hide Enabled, Do, Inv;
      ProducedIsYielded(trace, steps, i - 1);
      ReachableInv(trace, steps, i - 1);
      StepYields(trace[i - 1], steps[i - 1]);
      YieldedMore(steps[..i - 1], steps[i - 1]);
      hide Yielded;
      assert steps[..i] == steps[..i - 1] + [steps[i - 1]];
    }
  }

  lemma YieldedMore<T>(steps: seq<Step<T>>, step: Step<T>)
    ensures Yielded(steps + [step])
            == Yielded(steps) + if step.Yield? && step.value.Some? then [step.value.value] else []
  {
    assert (steps + [step])[..|steps|] == steps;
  }

  lemma StepYields<T>(s: State<T>, step: Step<T>)
    requires Inv(s) && Enabled(s, step)
    ensures Do(s, step).produced == s.produced + if step.Yield? && step.value.Some? then [step.value.value] else []
    ensures Do(s, step).done <==> s.done || step == Yield(None)
  {
    NothingAfter(s, step);
  }
}
