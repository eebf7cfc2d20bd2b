/** The intrusive waiter list of a sequence barrier: the pointer code of `publish` and `add_awaiter`, run without
    interference, against the order-preserving split that the protocol's steps use. */
module AwaiterList {
  import opened Lists

  class Awaiter {
    const target: int
    var lastKnown: int
    var next: Awaiter?
    var ready: bool
    var continued: nat

    constructor (target: int, lastKnown: int)
      ensures this.target == target && this.lastKnown == lastKnown && !ready && continued == 0 && next == null
    {
      this.target := target;
      this.lastKnown := lastKnown;
      next, ready, continued := null, false, 0;
    }

    /** Exchanges the flag; the coroutine continues when it was already set. */
    method Resume()
      modifies this`ready, this`continued
      ensures ready && continued == old(continued) + if old(ready) then 1 else 0
    {
      var before := ready;
      ready := true;
      if before {
        continued := continued + 1;
      }
    }
  }

  /** The nodes from `head` on, up to the null pointer, are `xs`. */
  ghost predicate Chain(head: Awaiter?, xs: seq<Awaiter>)
    reads set i | 0 <= i < |xs| :: xs[i]`next
  {
    && NoDup(xs)
    && (xs == [] ==> head == null)
    && (xs != [] ==> head == xs[0] && xs[|xs| - 1].next == null)
    && forall i :: 0 <= i < |xs| - 1 ==> xs[i].next == xs[i + 1]
  }

  predicate Due(a: Awaiter, known: int) {
    a.target <= known
  }

  function DueNodes(xs: seq<Awaiter>, known: int): seq<Awaiter> {
    Select(xs, a => Due(a, known))
  }

  function PendingNodes(xs: seq<Awaiter>, known: int): seq<Awaiter> {
    Select(xs, a => !Due(a, known))
  }

  /** A list under construction: the nodes from `head` on start with `xs`, and `tail` is the last of them (null
      while the list is empty: the tail pointer is then the head variable itself). */
  ghost predicate Partial(head: Awaiter?, tail: Awaiter?, xs: seq<Awaiter>)
    reads set i | 0 <= i < |xs| :: xs[i]`next
  {
    && NoDup(xs)
    && (xs == [] ==> tail == null)
    && (xs != [] ==> head == xs[0] && tail == xs[|xs| - 1])
    && forall i :: 0 <= i < |xs| - 1 ==> xs[i].next == xs[i + 1]
  }

  /** `*tail = a; tail = &a->m_next;` */
  method Append(head: Awaiter?, tail: Awaiter?, ghost xs: seq<Awaiter>, a: Awaiter) returns (newHead: Awaiter)
    requires Partial(head, tail, xs) && a !in xs
    modifies (if tail == null then {} else {tail})`next
    ensures Partial(newHead, a, xs + [a])
  {
    if tail == null {
      newHead := a;
    } else {
      tail.next := a;
      newHead := head;
    }
  }

  /** `*tail = nullptr;` */
  method Terminate(head: Awaiter?, tail: Awaiter?, ghost xs: seq<Awaiter>) returns (list: Awaiter?)
    requires Partial(head, tail, xs)
    modifies (if tail == null then {} else {tail})`next
    ensures Chain(list, xs)
  {
    if tail == null {
      list := null;
    } else {
      tail.next := null;
      list := head;
    }
  }

  ghost predicate Apart(xs: seq<Awaiter>, ys: seq<Awaiter>) {
    forall x :: x in xs ==> x !in ys
  }

  lemma ChainTail(a: Awaiter, rest: seq<Awaiter>)
    requires Chain(a, rest)
    ensures rest != [] && a == rest[0] && a !in rest[1..] && Chain(a.next, rest[1..])
  {
  }

  ghost predicate InList(tail: Awaiter?, xs: seq<Awaiter>) {
    tail == null || tail in xs
  }

  lemma TailInList(head: Awaiter?, tail: Awaiter?, xs: seq<Awaiter>)
    requires Partial(head, tail, xs)
    ensures InList(tail, xs)
  {
  }

  /** What the loop keeps: the nodes passed are shared out between the two lists, the rest is still linked. */
  ghost predicate Splitting(toResume: Awaiter?, resumeTail: Awaiter?, due: seq<Awaiter>,
                            toRequeue: Awaiter?, requeueTail: Awaiter?, pending: seq<Awaiter>,
                            a: Awaiter?, rest: seq<Awaiter>)
    reads due, pending, rest
  {
    && Partial(toResume, resumeTail, due)
    && Partial(toRequeue, requeueTail, pending)
    && Chain(a, rest)
    && Apart(due, rest) && Apart(pending, rest) && Apart(due, pending)
  }

  /** One round of the loop: append the first node of the rest to the first list. */
  method Pass(head: Awaiter?, tail: Awaiter?, ghost xs: seq<Awaiter>,
              ghost otherHead: Awaiter?, ghost otherTail: Awaiter?, ghost others: seq<Awaiter>,
              a: Awaiter, ghost rest: seq<Awaiter>) returns (newHead: Awaiter, next: Awaiter?)
    requires Splitting(head, tail, xs, otherHead, otherTail, others, a, rest)
    modifies (if tail == null then {} else {tail})`next
    ensures rest != [] && a == rest[0]
    ensures Splitting(newHead, a, xs + [a], otherHead, otherTail, others, next, rest[1..])
  {
    ChainTail(a, rest);
    TailInList(head, tail, xs);
    label before:
    assert forall i :: 0 <= i < |others| ==> others[i] in others && others[i] != tail;
    assert forall i :: 0 < i < |rest| ==> rest[i] in rest && rest[i] != tail;
    newHead := Append(head, tail, xs, a);
    next := a.next;
  }

  /** Both lists are terminated once the rest is empty. */
  method Finish(head: Awaiter?, tail: Awaiter?, ghost xs: seq<Awaiter>,
                otherHead: Awaiter?, otherTail: Awaiter?, ghost others: seq<Awaiter>) returns (list: Awaiter?, other: Awaiter?)
    requires Partial(head, tail, xs) && Partial(otherHead, otherTail, others) && Apart(xs, others)
    modifies (set a | a in xs || a in others)`next
    ensures Chain(list, xs) && Chain(other, others)
  {
    TailInList(head, tail, xs);
    TailInList(otherHead, otherTail, others);
    assert forall i :: 0 <= i < |xs| ==> xs[i] in xs && xs[i] != otherTail;
    assert forall i :: 0 <= i < |others| ==> others[i] in others && others[i] != tail;
    other := Terminate(otherHead, otherTail, others);
    list := Terminate(head, tail, xs);
  }

  /** The nodes collected so far and those that the rest will contribute make up the split of `xs`. */
  ghost predicate Remaining(xs: seq<Awaiter>, known: int, due: seq<Awaiter>, pending: seq<Awaiter>, rest: seq<Awaiter>) {
    && due + DueNodes(rest, known) == DueNodes(xs, known)
    && pending + PendingNodes(rest, known) == PendingNodes(xs, known)
    && (forall x :: x in due ==> x in xs)
    && (forall x :: x in pending ==> x in xs)
    && (forall x :: x in rest ==> x in xs)
  }

  lemma RemainingNext(xs: seq<Awaiter>, known: int, due: seq<Awaiter>, pending: seq<Awaiter>, rest: seq<Awaiter>)
    requires rest != [] && Remaining(xs, known, due, pending, rest)
    ensures Remaining(xs, known, if known < rest[0].target then due else due + [rest[0]],
                      if known < rest[0].target then pending + [rest[0]] else pending, rest[1..])
  {
    assert due + ([rest[0]] + DueNodes(rest[1..], known)) == due + [rest[0]] + DueNodes(rest[1..], known);
    assert pending + ([rest[0]] + PendingNodes(rest[1..], known)) == pending + [rest[0]] + PendingNodes(rest[1..], known);
  }

  lemma RemainingFirst(xs: seq<Awaiter>, known: int)
    ensures Remaining(xs, known, [], [], xs)
  {
  }

  lemma RemainingNone(xs: seq<Awaiter>, known: int, due: seq<Awaiter>, pending: seq<Awaiter>)
    requires Remaining(xs, known, due, pending, [])
    ensures due == DueNodes(xs, known) && pending == PendingNodes(xs, known)
  {
  }

  /** The loop body for the first node of the rest. */
  method Round(toResume: Awaiter?, resumeTail: Awaiter?, ghost due: seq<Awaiter>,
               toRequeue: Awaiter?, requeueTail: Awaiter?, ghost pending: seq<Awaiter>,
               a: Awaiter, ghost rest: seq<Awaiter>, known: int)
    returns (resume: Awaiter?, resumeEnd: Awaiter?, requeue: Awaiter?, requeueEnd: Awaiter?, next: Awaiter?,
             ghost due': seq<Awaiter>, ghost pending': seq<Awaiter>)
    requires Splitting(toResume, resumeTail, due, toRequeue, requeueTail, pending, a, rest)
    modifies (set x | x in due || x in pending)`next
    ensures rest != [] && a == rest[0]
    ensures due' == (if known < a.target then due else due + [a])
    ensures pending' == (if known < a.target then pending + [a] else pending)
    ensures Splitting(resume, resumeEnd, due', requeue, requeueEnd, pending', next, rest[1..])
  {
    TailInList(toRequeue, requeueTail, pending);
    TailInList(toResume, resumeTail, due);
    resume, resumeEnd, requeue, requeueEnd := toResume, resumeTail, toRequeue, requeueTail;
    due', pending' := due, pending;
    if known < a.target {
      requeue, next := Pass(toRequeue, requeueTail, pending, toResume, resumeTail, due, a, rest);
      requeueEnd, pending' := a, pending + [a];
    } else {
      resume, next := Pass(toResume, resumeTail, due, toRequeue, requeueTail, pending, a, rest);
      resumeEnd, due' := a, due + [a];
    }
  }

  /** The splitting loop: walks the list once and appends every node to one of two lists through tail pointers,
      overwriting links of nodes it has passed. */
  method Split(awaiters: Awaiter?, ghost xs: seq<Awaiter>, known: int) returns (toResume: Awaiter?, toRequeue: Awaiter?)
    requires Chain(awaiters, xs)
    modifies (set a | a in xs)`next
    ensures Chain(toResume, DueNodes(xs, known))
    ensures Chain(toRequeue, PendingNodes(xs, known))
  {
    toResume, toRequeue := null, null;
    var resumeTail: Awaiter?, requeueTail: Awaiter? := null, null;
    var a := awaiters;
    ghost var rest := xs;
    ghost var due: seq<Awaiter>, pending: seq<Awaiter> := [], [];
    RemainingFirst(xs, known);
    while a != null
      invariant Remaining(xs, known, due, pending, rest)
      invariant Splitting(toResume, resumeTail, due, toRequeue, requeueTail, pending, a, rest)
      decreases |rest|
    {
      RemainingNext(xs, known, due, pending, rest);
      toResume, resumeTail, toRequeue, requeueTail, a, due, pending :=
        Round(toResume, resumeTail, due, toRequeue, requeueTail, pending, a, rest, known);
      rest := rest[1..];
    }
    RemainingNone(xs, known, due, pending);
    toResume, toRequeue := Finish(toResume, resumeTail, due, toRequeue, requeueTail, pending);
  }

  /** What `publish` does to a waiter of the list it takes. */
  twostate predicate Served(a: Awaiter, sequence: int)
    reads a
  {
    if Due(a, sequence) then
      a.ready && a.lastKnown == sequence && a.continued == old(a.continued) + if old(a.ready) then 1 else 0
    else
      a.ready == old(a.ready) && a.lastKnown == old(a.lastKnown) && a.continued == old(a.continued)
  }

  class Barrier {
    var lastPublished: int
    var awaiters: Awaiter?

    /** publish(), when nobody interferes: exactly the waiters whose target is reached are resumed, once each and
        with the published number; the others are queued again in their order. */
    method Publish(sequence: int, ghost queue: seq<Awaiter>)
      requires Chain(awaiters, queue)
      modifies this, queue
      ensures lastPublished == sequence
      ensures Chain(awaiters, PendingNodes(queue, sequence))
      ensures forall a :: a in queue ==> Served(a, sequence)
    {
      lastPublished := sequence;
      var list := awaiters;
      awaiters := null;
      var toResume, toRequeue := Split(list, queue, sequence);
      if toRequeue != null {
        awaiters := toRequeue;
      }
      SplitMembers(queue, sequence);
      ghost var pending := PendingNodes(queue, sequence);
      label queued:
      assert Chain(awaiters, pending);
      ResumeAll(toResume, DueNodes(queue, sequence), sequence);
      assert forall i :: 0 <= i < |pending| ==> pending[i].next == old@queued(pending[i].next);
    }
  }

  lemma SplitMembers(xs: seq<Awaiter>, known: int)
    ensures forall a :: a in DueNodes(xs, known) <==> a in xs && Due(a, known)
    ensures forall a :: a in PendingNodes(xs, known) <==> a in xs && !Due(a, known)
  {
    SelectMembers(xs, a => Due(a, known));
    SelectMembers(xs, a => !Due(a, known));
  }

  /** The resume loop: the next link is read before the node is resumed. */
  method ResumeAll(toResume: Awaiter?, ghost xs: seq<Awaiter>, sequence: int)
    requires Chain(toResume, xs)
    modifies (set a | a in xs)`lastKnown, (set a | a in xs)`ready, (set a | a in xs)`continued
    ensures forall a :: a in xs ==>
              a.ready && a.lastKnown == sequence && a.continued == old(a.continued) + if old(a.ready) then 1 else 0
  {
    var a := toResume;
    ghost var i := 0;
    while a != null
      invariant 0 <= i <= |xs| && a == if i < |xs| then xs[i] else null
      invariant forall k :: 0 <= k < i ==> xs[k].ready && xs[k].lastKnown == sequence
                                           && xs[k].continued == old(xs[k].continued) + if old(xs[k].ready) then 1 else 0
      invariant forall k :: i <= k < |xs| ==> xs[k].ready == old(xs[k].ready) && xs[k].continued == old(xs[k].continued)
      decreases |xs| - i
    {
      var next := a.next;
      a.lastKnown := sequence;
      a.Resume();
      a := next;
      i := i + 1;
    }
  }
}
