/** Waiting for published numbers on a multi-producer sequencer, as a transition system with one atomic access
    per step: `add_awaiter` on the consumers' side and `resume_ready_awaiters` at the end of every publication. */
module MultiProducer {
  import opened Lists
  import opened SequencerRing

  datatype WaitPhase =
    | Fresh       // constructed, await_ready pending
    | Load        // about to read the list head
    | Link        // about to compare-exchange the list head
    | Scan        // reading the slot of known + 1
    | Sweep       // about to exchange the list head with null
    | Wake        // resume loop
    | Leave       // about to exchange the own flag
    | Suspended
    | Continued

  /** Where a node is. No step reads it: it only names the unique holder. Nodes whose flag has been raised are
      `Served` by a publication or `Swept` by another waiter. */
  datatype Place =
    | Nowhere | Shared | Own(c: Id) | SweepList(c: Id)
    | Taken(p: Id) | Hold(p: Id) | Due(p: Id) | Served | Swept

  datatype Wait = Wait(
    target: int, start: int, lastKnown: int, ready: bool,
    phase: WaitPhase, hold: seq<Id>, wake: seq<Id>, known: int, expected: Option<Id>,
    continued: nat, place: Place)

  datatype NotePhase =
    | NLoad       // about to read the list head
    | NTake       // about to exchange the list head with null
    | NScan       // last_published_after, reading the slot of known + 1
    | NLink       // about to compare-exchange the list head
    | NRescan     // checking again, reading the slot of known + 1
    | NRetake     // about to exchange the list head with null again
    | NWake       // resume loop

  /** A call of resume_ready_awaiters. */
  datatype Note = Note(
    phase: NotePhase, taken: seq<Id>, hold: seq<Id>, wake: seq<Id>, known: int, goal: int, expected: Option<Id>)

  datatype State<V> = State(ring: Ring<V>, queue: seq<Id>, notes: map<Id, Note>, waits: map<Id, Wait>)

  datatype Step<V> =
    | RingMove(move: RingStep<V>)
    | NoteLoad(p: Id)
    | NoteTake(p: Id)
    | NoteScan(p: Id)
    | NoteSplit(p: Id)
    | NoteLinkOk(p: Id)
    | NoteLinkFail(p: Id)
    | NoteRescan(p: Id)
    | NoteStop(p: Id)
    | NoteRetake(p: Id)
    | NoteResume(p: Id)
    | Construct(n: Id, target: int, start: int)
    | Begin(n: Id)
    | LoadHead(n: Id)
    | LinkOk(n: Id)
    | LinkFail(n: Id)
    | ScanOn(n: Id)
    | ScanStop(n: Id)
    | SweepAll(n: Id)
    | WakeNext(n: Id)
    | WakeDone(n: Id)
    | LeaveExchange(n: Id)

  const NOTIFY := Note(NLoad, [], [], [], 0, 0, None)

  function InitialState<V>(size: int, initial: int, blank: V): State<V>
    requires 0 < size
  {
    State(InitialRing(size, initial, blank), [], map[], map[])
  }

  predicate Noting<V>(s: State<V>, p: Id, ph: NotePhase) {
    p in s.notes && s.notes[p].phase == ph
  }

  predicate WaitIn<V>(s: State<V>, n: Id, ph: WaitPhase) {
    n in s.waits && s.waits[n].phase == ph
  }

  /** The slot of `x` answers for `x`. */
  predicate Answers<V>(s: State<V>, x: int) {
    0 < s.ring.size == |s.ring.published| && Cell(s.ring, x) == x
  }

  /** A waiter that has not continued still holds back the consumers' barrier at the number it started from. */
  ghost predicate HoldsBack<V>(s: State<V>, upTo: int) {
    forall n :: n in s.waits && s.waits[n].continued == 0 ==> upTo <= s.waits[n].start
  }

  ghost predicate Enabled<V>(s: State<V>, step: Step<V>) {
    match step
    case RingMove(move) =>
      && RingEnabled(s.ring, move)
      && (move.Consume? ==> HoldsBack(s, move.upTo))
      && (move.StoreFront? ==> move.p !in s.notes)
    case NoteLoad(p) => Noting(s, p, NLoad)
    case NoteTake(p) => Noting(s, p, NTake)
    case NoteScan(p) => Noting(s, p, NScan) && Answers(s, s.notes[p].known + 1)
    case NoteSplit(p) => Noting(s, p, NScan) && !Answers(s, s.notes[p].known + 1)
    case NoteLinkOk(p) => Noting(s, p, NLink) && s.notes[p].expected == Head(s.queue)
    case NoteLinkFail(p) => Noting(s, p, NLink)
    case NoteRescan(p) => Noting(s, p, NRescan) && Answers(s, s.notes[p].known + 1)
    case NoteStop(p) => Noting(s, p, NRescan) && !Answers(s, s.notes[p].known + 1)
    case NoteRetake(p) => Noting(s, p, NRetake)
    case NoteResume(p) => Noting(s, p, NWake) && s.notes[p].wake != [] && s.notes[p].wake[0] in s.waits
    case Construct(n, target, start) => n !in s.waits && s.ring.consumed <= start && Contiguous(s.ring, start)
    case Begin(n) => WaitIn(s, n, Fresh)
    case LoadHead(n) => WaitIn(s, n, Load)
    case LinkOk(n) => WaitIn(s, n, Link) && s.waits[n].expected == Head(s.queue)
    case LinkFail(n) => WaitIn(s, n, Link)
    case ScanOn(n) => WaitIn(s, n, Scan) && Answers(s, s.waits[n].known + 1)
    case ScanStop(n) => WaitIn(s, n, Scan) && !Answers(s, s.waits[n].known + 1)
    case SweepAll(n) => WaitIn(s, n, Sweep)
    case WakeNext(n) => WaitIn(s, n, Wake) && s.waits[n].wake != [] && s.waits[n].wake[0] in s.waits
    case WakeDone(n) => WaitIn(s, n, Wake) && s.waits[n].wake == []
    case LeaveExchange(n) => WaitIn(s, n, Leave)
  }

  // ---------------------------------------------------------------- steps

  function Later(ws: map<Id, Wait>, xs: seq<Id>, known: int): seq<Id> {
    Select(xs, n => n in ws && known < ws[n].target)
  }

  function Reached(ws: map<Id, Wait>, xs: seq<Id>, known: int): seq<Id> {
    Select(xs, n => !(n in ws && known < ws[n].target))
  }

  /** The earliest target among `xs` (0 when there is none). */
  function Earliest(ws: map<Id, Wait>, xs: seq<Id>): int
  {
    if xs == [] then 0
    else
      var t := if xs[0] in ws then ws[xs[0]].target else 0;
      if |xs| == 1 then t
      else
        var rest := Earliest(ws, xs[1..]);
        if t < rest then t else rest
  }

  function Relocate(ws: map<Id, Wait>, xs: seq<Id>, p: Place): map<Id, Wait> {
    map n | n in ws :: if n in xs then ws[n].(place := p) else ws[n]
  }

  /** Relocation of nodes whose m_lastKnownPublished is overwritten on the way. */
  function Renew(ws: map<Id, Wait>, xs: seq<Id>, p: Place, known: int): map<Id, Wait> {
    map n | n in ws :: if n in xs then ws[n].(place := p, lastKnown := known) else ws[n]
  }

  /** `resume(known)` of node `n`: store the number, exchange the flag, continue if it was already set. */
  function Raise(ws: map<Id, Wait>, n: Id, known: int, via: Place): map<Id, Wait>
    requires n in ws
  {
    var w := ws[n].(lastKnown := known, ready := true, place := via);
    ws[n := if ws[n].ready then w.(continued := w.continued + 1, phase := Continued) else w]
  }

  function SetNote<V>(s: State<V>, p: Id, c: Note): State<V> {
    s.(notes := s.notes[p := c])
  }

  function SetWait<V>(s: State<V>, n: Id, w: Wait): State<V> {
    s.(waits := s.waits[n := w])
  }

  /** Only the store of a front number is followed by resume_ready_awaiters. */
  ghost function DoRing<V>(s: State<V>, move: RingStep<V>): State<V>
    requires RingEnabled(s.ring, move)
  {
    var t := s.(ring := RingDo(s.ring, move));
    if move.StoreFront? then SetNote(t, move.p, NOTIFY) else t
  }

  function DoNoteLoad<V>(s: State<V>, p: Id): State<V>
    requires p in s.notes
  {
    SetNote(s, p, s.notes[p].(phase := if s.queue == [] then NWake else NTake))
  }

  /** Exchange the list with null; if there is one, start at what its first node knows. */
  function DoNoteTake<V>(s: State<V>, p: Id): State<V>
    requires p in s.notes
  {
    var c := s.notes[p];
    var t := s.(queue := [], waits := Relocate(s.waits, s.queue, Taken(p)));
    SetNote(t, p, if s.queue == [] then c.(phase := NWake)
                  else c.(phase := NScan, taken := s.queue,
                          known := if s.queue[0] in s.waits then s.waits[s.queue[0]].lastKnown else c.known))
  }

  function DoNoteScan<V>(s: State<V>, p: Id): State<V>
    requires p in s.notes
  {
    SetNote(s, p, s.notes[p].(known := s.notes[p].known + 1))
  }

  function DoNoteSplit<V>(s: State<V>, p: Id): State<V>
    requires p in s.notes
  {
    var c := s.notes[p];
    NoteDivide(s, p, Later(s.waits, c.taken, c.known), Reached(s.waits, c.taken, c.known))
  }

  function NoteDivide<V>(s: State<V>, p: Id, later: seq<Id>, reached: seq<Id>): State<V>
    requires p in s.notes
  {
    var c := s.notes[p];
    var ws := Renew(Renew(s.waits, later, Hold(p), c.known), reached, Due(p), c.known);
    SetNote(s.(waits := ws), p,
            c.(phase := if later == [] then NWake else NLink, taken := [], hold := later, wake := c.wake + reached,
               goal := Earliest(s.waits, later), expected := None))
  }

  /** The list behind a link. A link that is not the head any more leads to nodes that others have taken. */
  function Behind(queue: seq<Id>, link: Option<Id>): seq<Id> {
    if link == Head(queue) then queue else []
  }

  function DoNoteLink<V>(s: State<V>, p: Id): State<V>
    requires p in s.notes
  {
    var c := s.notes[p];
    SetNote(s.(queue := c.hold + Behind(s.queue, c.expected), waits := Relocate(s.waits, c.hold, Shared)), p,
            c.(phase := NRescan, hold := []))
  }

  function DoNoteLinkFail<V>(s: State<V>, p: Id): State<V>
    requires p in s.notes
  {
    SetNote(s, p, s.notes[p].(expected := Head(s.queue)))
  }

  function DoNoteRescan<V>(s: State<V>, p: Id): State<V>
    requires p in s.notes
  {
    var c := s.notes[p];
    SetNote(s, p, c.(known := c.known + 1, phase := if c.known + 1 == c.goal then NRetake else NRescan))
  }

  function DoNoteStop<V>(s: State<V>, p: Id): State<V>
    requires p in s.notes
  {
    SetNote(s, p, s.notes[p].(phase := NWake))
  }

  function DoNoteResume<V>(s: State<V>, p: Id): State<V>
    requires p in s.notes && s.notes[p].wake != [] && s.notes[p].wake[0] in s.waits
  {
    var c := s.notes[p];
    SetNote(s.(waits := Raise(s.waits, c.wake[0], c.known, Served)), p, c.(wake := c.wake[1..]))
  }

  function DoConstruct<V>(s: State<V>, n: Id, target: int, start: int): State<V> {
    SetWait(s, n, Wait(target, start, start, false, Fresh, [], [], start, None, 0, Nowhere))
  }

  function DoBegin<V>(s: State<V>, n: Id): State<V>
    requires n in s.waits
  {
    var w := s.waits[n];
    SetWait(s, n, if w.lastKnown < w.target then w.(phase := Load, hold := [n], place := Own(n))
                  else w.(phase := Continued, continued := w.continued + 1))
  }

  function DoLoadHead<V>(s: State<V>, n: Id): State<V>
    requires n in s.waits
  {
    SetWait(s, n, s.waits[n].(phase := Link, expected := Head(s.queue)))
  }

  function DoLink<V>(s: State<V>, n: Id): State<V>
    requires n in s.waits
  {
    var hold := s.waits[n].hold;
    var ws := Relocate(s.waits, hold, Shared);
    s.(queue := hold + Behind(s.queue, s.waits[n].expected), waits := ws[n := ws[n].(hold := [], phase := Scan)])
  }

  function DoLinkFail<V>(s: State<V>, n: Id): State<V>
    requires n in s.waits
  {
    SetWait(s, n, s.waits[n].(expected := Head(s.queue)))
  }

  function DoScanOn<V>(s: State<V>, n: Id): State<V>
    requires n in s.waits
  {
    SetWait(s, n, s.waits[n].(known := s.waits[n].known + 1))
  }

  function DoScanStop<V>(s: State<V>, n: Id): State<V>
    requires n in s.waits
  {
    var w := s.waits[n];
    SetWait(s, n, w.(phase := if w.known < w.target then Wake else Sweep))
  }

  /** The nodes that add_awaiter resumes out of the list it takes. The source compares the local target, which
      the scan has just reached, and not each node's own: nothing is ever put back. */
  function ResumedBySweep(xs: seq<Id>, localTarget: int, known: int): seq<Id> {
    Select(xs, n => !(known < localTarget))
  }

  function DoSweep<V>(s: State<V>, n: Id): State<V>
    requires n in s.waits
  {
    var w := s.waits[n];
    var ws := Relocate(s.waits, s.queue, SweepList(n));
    s.(queue := [], waits := ws[n := ws[n].(wake := ResumedBySweep(s.queue, w.target, w.known), phase := Wake)])
  }

  function DoWakeNext<V>(s: State<V>, n: Id): State<V>
    requires n in s.waits && s.waits[n].wake != [] && s.waits[n].wake[0] in s.waits
  {
    var w := s.waits[n];
    var ws := Raise(s.waits, w.wake[0], w.known, Swept);
    s.(waits := ws[n := ws[n].(wake := w.wake[1..])])
  }

  function DoWakeDone<V>(s: State<V>, n: Id): State<V>
    requires n in s.waits
  {
    SetWait(s, n, s.waits[n].(phase := Leave))
  }

  function DoLeave<V>(s: State<V>, n: Id): State<V>
    requires n in s.waits
  {
    var w := s.waits[n];
    SetWait(s, n, if w.ready then w.(phase := Continued, continued := w.continued + 1)
                  else w.(ready := true, phase := Suspended))
  }

  ghost function Do<V>(s: State<V>, step: Step<V>): State<V>
    requires Enabled(s, step)
  {
    match step
    case RingMove(move) => DoRing(s, move)
    case NoteLoad(p) => DoNoteLoad(s, p)
    case NoteTake(p) => DoNoteTake(s, p)
    case NoteScan(p) => DoNoteScan(s, p)
    case NoteSplit(p) => DoNoteSplit(s, p)
    case NoteLinkOk(p) => DoNoteLink(s, p)
    case NoteLinkFail(p) => DoNoteLinkFail(s, p)
    case NoteRescan(p) => DoNoteRescan(s, p)
    case NoteStop(p) => DoNoteStop(s, p)
    case NoteRetake(p) => DoNoteTake(s, p)
    case NoteResume(p) => DoNoteResume(s, p)
    case Construct(n, target, start) => DoConstruct(s, n, target, start)
    case Begin(n) => DoBegin(s, n)
    case LoadHead(n) => DoLoadHead(s, n)
    case LinkOk(n) => DoLink(s, n)
    case LinkFail(n) => DoLinkFail(s, n)
    case ScanOn(n) => DoScanOn(s, n)
    case ScanStop(n) => DoScanStop(s, n)
    case SweepAll(n) => DoSweep(s, n)
    case WakeNext(n) => DoWakeNext(s, n)
    case WakeDone(n) => DoWakeDone(s, n)
    case LeaveExchange(n) => DoLeave(s, n)
  }

  ghost predicate Run<V>(trace: seq<State<V>>, steps: seq<Step<V>>, size: int, initial: int, blank: V)
    requires 0 < size
  {
    && |trace| == |steps| + 1
    && trace[0] == InitialState(size, initial, blank)
    && forall i :: 0 <= i < |steps| ==> Enabled(trace[i], steps[i]) && trace[i + 1] == Do(trace[i], steps[i])
  }
}
