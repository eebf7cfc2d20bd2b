/** Generators that yield whole generators: the linked stack of suspended coroutines, and the values seen through it.
    The body of a coroutine is what it is going to yield. */
module RecursiveGenerator {
  import opened Lists

  /** What a coroutine can yield: a value, a generator that has not been started, or a generator object without a
      coroutine. */
  datatype Item<T> = Value(value: T) | Nested(body: seq<Item<T>>) | Missing

  /** The values of a body in the order of a depth-first walk. */
  function Flatten<T>(body: seq<Item<T>>): seq<T> {
    if body == [] then [] else FlattenItem(body[0]) + Flatten(body[1..])
  }

  function FlattenItem<T>(item: Item<T>): seq<T> {
    match item
    case Value(v) => [v]
    case Nested(body) => Flatten(body)
    case Missing => []
  }

  /** How much is left to do in a body. */
  function Weight<T>(body: seq<Item<T>>): nat {
    if body == [] then 0 else 1 + WeightItem(body[0]) + Weight(body[1..])
  }

  function WeightItem<T>(item: Item<T>): nat {
    if item.Nested? then Weight(item.body) else 0
  }

  /** The values still to come from suspended coroutines, the last of which goes first. */
  function Future<T>(rests: seq<seq<Item<T>>>): seq<T> {
    if rests == [] then [] else Future(rests[1..]) + Flatten(rests[0])
  }

  lemma {:induction false} FutureConcat<T>(above: seq<seq<Item<T>>>, below: seq<seq<Item<T>>>)
    ensures Future(above + below) == Future(below) + Future(above)
  {
    hide Flatten;
    if above == [] {
      assert above + below == below;
    } else {
      FutureConcat(above[1..], below);
      assert (above + below)[1..] == above[1..] + below;
    }
  }

  lemma FutureLast<T>(rests: seq<seq<Item<T>>>)
    requires rests != []
    ensures Future(rests) == Flatten(rests[|rests| - 1]) + Future(rests[..|rests| - 1])
  {
    var k := |rests| - 1;
    assert rests == rests[..k] + [rests[k]] && [rests[k]][1..] == [];
    FutureConcat(rests[..k], [rests[k]]);
  }

  class Promise<T> {
    /** The frame of the coroutine: what it has not yielded yet, and whether it stands at its final suspension. */
    var rest: seq<Item<T>>
    var complete: bool
    var current: Option<T>
    var root: Promise<T>
    /** In the root: the running or suspended leaf; elsewhere: the parent. */
    var parentOrLeaf: Promise<T>
    /** How many coroutines are above this one. */
    ghost var level: nat

    constructor (body: seq<Item<T>>)
      ensures rest == body && !complete && current.None? && root == this && parentOrLeaf == this && level == 0
    {
      rest, complete, current, level := body, false, None, 0;
      root, parentOrLeaf := this, this;
    }

    /** Runs the coroutine to its next suspension. `stack` leads from the root to this coroutine; `more` leads on from
        here to the new leaf, and `left` is what is left of these coroutines. */
    method Resume(ghost stack: seq<Promise<T>>)
      returns (ghost more: seq<Promise<T>>, ghost left: seq<seq<Item<T>>>)
      requires Linked(stack) && stack[|stack| - 1] == this && !complete
      modifies this`rest, this`complete, this`current, root`parentOrLeaf
      ensures Linked(stack + more) && fresh(more)
      ensures if complete then more == [] && Flatten(old(rest)) == []
              else Suspended([this] + more, left, Flatten(old(rest)))
      decreases Weight(rest), 1
    {
      more, left := [], [];
      assert stack + more == stack;
      while rest != []
        invariant !complete && more == [] && Linked(stack)
        invariant Flatten(rest) == Flatten(old(rest)) && Weight(rest) <= Weight(old(rest))
        decreases Weight(rest)
      {
        var item := NextItem();
        match item
        case Value(v) =>
          current, left := Some(v), [rest];
          assert Future(left) == Flatten(rest);
          return;
        case Missing =>
        case Nested(body) =>
          var suspended;
          suspended, more, left := StartNested(body, stack);
          if suspended {
            return;
          }
      }
      complete := true;
    }

    /** Runs to the next yield expression. */
    method NextItem() returns (item: Item<T>)
      requires rest != []
      modifies this`rest
      ensures Flatten(old(rest)) == FlattenItem(item) + Flatten(rest)
      ensures Weight(old(rest)) == 1 + WeightItem(item) + Weight(rest)
    {
      item := rest[0];
      rest := rest[1..];
    }

    /** Creates a generator and yields it. */
    method StartNested(body: seq<Item<T>>, ghost stack: seq<Promise<T>>)
      returns (suspended: bool, ghost more: seq<Promise<T>>, ghost left: seq<seq<Item<T>>>)
      requires Linked(stack) && stack[|stack| - 1] == this && !complete
      modifies root`parentOrLeaf
      ensures fresh(more)
      ensures if suspended then Linked(stack + more) && Suspended([this] + more, left, Flatten(body) + Flatten(rest))
              else more == [] && Linked(stack) && Flatten(body) == []
      decreases Weight(body), 3
    {
      hide Flatten, Future, Suspended, Weight;
      assert Member(stack, 0);
      var child := new Promise(body);
      forall i | 0 <= i < |stack| ensures Member(stack, i) {
        assert old(Member(stack, i));
      }
      assert child !in stack;
      ghost var below, owed;
      suspended, below, owed := YieldGenerator(child, stack);
      more, left := [], [];
      if suspended {
        SuspendedBehind(this, [child] + below, owed, Flatten(body));
        assert stack + [child] + below == stack + ([child] + below);
        more, left := [child] + below, [rest] + owed;
        assert [this] + more == [this] + ([child] + below);
      }
    }

    /** Yields a generator: runs it at once, and stays suspended behind it unless it completes without a value. */
    method YieldGenerator(child: Promise<T>, ghost stack: seq<Promise<T>>)
      returns (suspended: bool, ghost more: seq<Promise<T>>, ghost left: seq<seq<Item<T>>>)
      requires Linked(stack) && stack[|stack| - 1] == this && !complete
      requires child !in stack && !child.complete
      modifies child, root`parentOrLeaf
      ensures fresh(more)
      ensures if suspended then Linked(stack + [child] + more) && Suspended([child] + more, left, Flatten(old(child.rest)))
              else more == [] && Linked(stack) && Flatten(old(child.rest)) == []
      decreases Weight(child.rest), 2
    {
      Enter(child, stack);
      more, left := child.Resume(stack + [child]);
      if !child.complete {
        suspended := true;
        return;
      }
      assert stack + [child] + more == stack + [child];
      Prefix(stack, stack + [child]);
      root.SetLeaf(this, stack);
      suspended := false;
    }

    method Enter(child: Promise<T>, ghost stack: seq<Promise<T>>)
      requires Linked(stack) && stack[|stack| - 1] == this && child !in stack
      modifies child`root, child`parentOrLeaf, child`level, root`parentOrLeaf
      ensures Linked(stack + [child]) && root == old(root) && child.root == root
    {
      assert Member(stack, |stack| - 1) && Member(stack, 0);
      root.SetLeaf(child, stack);
      child.root := root;
      child.parentOrLeaf := this;
      child.level := |stack|;
      Pushed(stack, child);
    }

    /** In the root, the field that names the parent elsewhere names the leaf. */
    method SetLeaf(leaf: Promise<T>, ghost stack: seq<Promise<T>>)
      requires Parents(stack) && stack[0] == this
      modifies this`parentOrLeaf
      ensures Parents(stack) && parentOrLeaf == leaf
    {
      NoCycle(stack);
      parentOrLeaf := leaf;
      forall i | 0 <= i < |stack| ensures Member(stack, i) {
        assert old(Member(stack, i)) && (i > 0 ==> stack[i] != stack[0]);
      }
    }

    /** Resumes the leaf of a root; `rests` is what is left of the coroutines of its stack. */
    method ResumeLeaf(ghost stack: seq<Promise<T>>, ghost rests: seq<seq<Item<T>>>)
      returns (ghost next: seq<Promise<T>>, ghost left: seq<seq<Item<T>>>)
      requires Linked(stack) && stack[0] == this && Holds(stack, rests)
      modifies stack[|stack| - 1], this`parentOrLeaf
      ensures Resumed(Future(rests), next, left)
      ensures forall i :: 0 <= i < |next| ==> (i < |stack| && next[i] == stack[i]) || fresh(next[i])
      ensures |stack| <= |next| && next[0] == this && (next[|next| - 1].complete ==> |next| == |stack|)
    {
      hide Flatten, Future, Weight, NoDup;
      ghost var k, more := |stack| - 1, [];
      FutureLast(rests);
      NoCycle(stack);
      assert Member(stack, k);
      ghost var owed;
      more, owed := parentOrLeaf.Resume(stack);
      next := stack + more;
      left := rests[..k];
      if !stack[k].complete {
        FutureConcat(left, owed);
        assert next == stack[..k] + ([stack[k]] + more);
        left := left + owed;
      }
    }

    /** Runs the stack of coroutines until there is a next value or the root is complete. */
    method Pull(ghost stack: seq<Promise<T>>, ghost rests: seq<seq<Item<T>>>)
      returns (ghost next: seq<Promise<T>>, ghost left: seq<seq<Item<T>>>)
      requires Linked(stack) && stack[0] == this && Holds(stack, rests)
      modifies stack
      ensures Pulled(Future(rests), next, left) && next[0] == this
      ensures forall i :: 0 <= i < |next| ==> next[i] in stack || fresh(next[i])
    {
      hide Flatten, Future, Pulled;
      next, left := ResumeLeaf(stack, rests);
      while parentOrLeaf != this && parentOrLeaf.complete
        invariant Resumed(Future(rests), next, left) && next[0] == this
        invariant forall i :: 0 <= i < |next| ==> next[i] in stack || fresh(next[i])
        decreases if parentOrLeaf.complete then |next| else 0
      {
        ghost var above := next[..|next| - 1];
        Popped(next);
        SetLeaf(parentOrLeaf.parentOrLeaf, above);
        next, left := ResumeLeaf(above, left);
      }
      ResumedIsPulled(Future(rests), next, left);
    }

    /** The value shown by the leaf. */
    method GetValue(ghost due: seq<T>, ghost stack: seq<Promise<T>>, ghost left: seq<seq<Item<T>>>) returns (value: T)
      requires Pulled(due, stack, left) && stack[0] == this && !complete
      ensures due == [value] + Future(left)
    {
      value := parentOrLeaf.current.value;
    }
  }

  /** What a consumer holds: the root of a generator with a value to show, or null when it has come to the end. */
  class Cursor<T> {
    var promise: Promise?<T>

    constructor (p: Promise?<T>)
      ensures promise == p
    {
      promise := p;
    }

    /** `due` are the values from the current one on, `left` is what remains of the suspended coroutines. */
    ghost predicate At(due: seq<T>, stack: seq<Promise<T>>, left: seq<seq<Item<T>>>)
      reads this, stack
    {
      if promise == null then due == [] else Pulled(due, stack, left) && stack[0] == promise && !stack[0].complete
    }

    method Get(ghost due: seq<T>, ghost stack: seq<Promise<T>>, ghost left: seq<seq<Item<T>>>) returns (value: T)
      requires At(due, stack, left) && promise != null
      ensures due != [] && value == due[0]
    {
      value := promise.GetValue(due, stack, left);
    }

    method Increment(ghost due: seq<T>, ghost stack: seq<Promise<T>>, ghost left: seq<seq<Item<T>>>)
      returns (ghost next: seq<Promise<T>>, ghost rests: seq<seq<Item<T>>>)
      requires At(due, stack, left) && promise != null
      modifies this, stack
      ensures due != [] && At(due[1..], next, rests)
      ensures forall i :: 0 <= i < |next| ==> next[i] in stack || fresh(next[i])
    {
      next, rests := promise.Pull(stack, left);
      if promise.complete {
        promise := null;
      }
    }
  }

  class Generator<T> {
    /** Null for a generator object without a coroutine. */
    var promise: Promise?<T>

    constructor (p: Promise?<T>)
      ensures promise == p
    {
      promise := p;
    }

    method Begin(ghost stack: seq<Promise<T>>, ghost rests: seq<seq<Item<T>>>)
      returns (cursor: Cursor<T>, ghost next: seq<Promise<T>>, ghost left: seq<seq<Item<T>>>)
      requires promise != null ==> Linked(stack) && stack[0] == promise && Holds(stack, rests)
      modifies stack
      ensures fresh(cursor) && forall i :: 0 <= i < |next| ==> next[i] in stack || fresh(next[i])
      ensures cursor.At(if promise == null then [] else Future(rests), next, left)
    {
      next, left := stack, rests;
      if promise != null {
        next, left := promise.Pull(stack, rests);
        if !promise.complete {
          cursor := new Cursor(promise);
          return;
        }
      }
      cursor := new Cursor(null);
    }
  }

  /** From a cursor to the end. */
  method Drain<T>(it: Cursor<T>, ghost due: seq<T>, ghost stack: seq<Promise<T>>, ghost left: seq<seq<Item<T>>>)
    returns (seen: seq<T>)
    requires it.At(due, stack, left)
    modifies it, stack
    ensures seen == due
  {
    ghost var now, then_, rests := stack, due, left;
    seen := [];
    while it.promise != null
      invariant it.At(then_, now, rests) && seen + then_ == due
      invariant forall i :: 0 <= i < |now| ==> now[i] in stack || fresh(now[i])
      decreases |then_|
    {
      var value := it.Get(then_, now, rests);
      now, rests := it.Increment(then_, now, rests);
      seen, then_ := seen + [value], then_[1..];
    }
  }

  /** A consumer that goes through a generator from `begin` to `end` sees the depth-first flattening of its body. */
  method ForEach<T>(body: seq<Item<T>>) returns (seen: seq<T>)
    ensures seen == Flatten(body)
  {
    var root := new Promise(body);
    var generator := new Generator(root);
    ghost var stack, left := [root], [body];
    assert Future(left) == Flatten(body);
    var it;
    it, stack, left := generator.Begin(stack, left);
    seen := Drain(it, Flatten(body), stack, left);
  }

  /** The links between the coroutines from a root on: each one knows the root and the one before it. */
  ghost predicate Parents<T>(stack: seq<Promise<T>>)
    reads stack`root, stack`parentOrLeaf, stack`level
  {
    stack != [] && forall i {:trigger Member(stack, i)} :: 0 <= i < |stack| ==> Member(stack, i)
  }

  ghost predicate Member<T>(stack: seq<Promise<T>>, i: nat)
    requires i < |stack|
    reads stack`root, stack`parentOrLeaf, stack`level
  {
    stack[i].root == stack[0] && stack[i].level == i && (i > 0 ==> stack[i].parentOrLeaf == stack[i - 1])
  }

  /** No coroutine occurs twice: the chain from the leaf to the root has no cycle. */
  lemma NoCycle<T>(stack: seq<Promise<T>>)
    requires Parents(stack)
    ensures NoDup(stack)
  {
    forall i, j | 0 <= i < j < |stack| ensures stack[i] != stack[j] {
      assert Member(stack, i) && Member(stack, j);
    }
  }

  /** `stack` leads from a root to its leaf, which the root knows. */
  ghost predicate Linked<T>(stack: seq<Promise<T>>)
    reads stack`root, stack`parentOrLeaf, stack`level
  {
    Parents(stack) && stack[0].parentOrLeaf == stack[|stack| - 1]
  }

  /** The first coroutines of a stack are one, but for what the root knows of the leaf. */
  lemma Prefix<T>(stack: seq<Promise<T>>, longer: seq<Promise<T>>)
    requires stack != [] && Linked(longer) && stack <= longer
    ensures Parents(stack)
  {
    forall i | 0 <= i < |stack| ensures Member(stack, i) {
      assert Member(longer, i);
    }
  }

  lemma Pushed<T>(stack: seq<Promise<T>>, child: Promise<T>)
    requires Parents(stack) && child.level == |stack|
    requires child.root == stack[0] && child.parentOrLeaf == stack[|stack| - 1]
    ensures Parents(stack + [child])
  {
    forall i | 0 <= i < |stack + [child]| ensures Member(stack + [child], i) {
      assert i < |stack| ==> Member(stack, i);
    }
  }

  /** `rests` is what is left of coroutines that are suspended before their end. */
  ghost predicate Holds<T>(stack: seq<Promise<T>>, rests: seq<seq<Item<T>>>)
    reads stack`rest, stack`complete
  {
    |rests| == |stack| && forall i :: 0 <= i < |stack| ==> stack[i].rest == rests[i] && !stack[i].complete
  }

  /** The last of these suspended coroutines shows the first of the values `due`; the others are left. */
  ghost predicate Suspended<T>(stack: seq<Promise<T>>, left: seq<seq<Item<T>>>, due: seq<T>)
    reads stack`rest, stack`complete, stack`current
  {
    && stack != [] && Holds(stack, left)
    && stack[|stack| - 1].current.Some? && due == [stack[|stack| - 1].current.value] + Future(left)
  }

  lemma SuspendedBehind<T>(parent: Promise<T>, more: seq<Promise<T>>, left: seq<seq<Item<T>>>, due: seq<T>)
    requires Suspended(more, left, due) && !parent.complete
    ensures Suspended([parent] + more, [parent.rest] + left, due + Flatten(parent.rest))
  {
    var all := [parent] + more;
    assert all[|all| - 1] == more[|more| - 1];
    assert ([parent.rest] + left)[1..] == left;
  }

  /** What a resumed leaf leaves behind: it is complete, and the ones before it owe what is due; or there is a new leaf
      that shows the first of the values due. */
  ghost predicate Resumed<T>(due: seq<T>, stack: seq<Promise<T>>, left: seq<seq<Item<T>>>)
    reads stack
  {
    && Linked(stack)
    && if stack[|stack| - 1].complete then Holds(stack[..|stack| - 1], left) && due == Future(left)
       else Suspended(stack, left, due)
  }

  /** What the consumer finds: the generator is complete and nothing was due, or it shows the next value. */
  ghost predicate Pulled<T>(due: seq<T>, stack: seq<Promise<T>>, left: seq<seq<Item<T>>>)
    reads stack
  {
    Linked(stack) && if stack[0].complete then due == [] else Suspended(stack, left, due)
  }

  /** With a leaf that is not complete, or with the root as the leaf, there is nothing more to do. */
  lemma ResumedIsPulled<T>(due: seq<T>, stack: seq<Promise<T>>, left: seq<seq<Item<T>>>)
    requires Resumed(due, stack, left) && (stack[|stack| - 1] == stack[0] || !stack[|stack| - 1].complete)
    ensures Pulled(due, stack, left)
  {
    NoCycle(stack);
  }

  /** The parent of a complete leaf becomes the leaf. */
  lemma Popped<T>(stack: seq<Promise<T>>)
    requires Linked(stack) && stack[|stack| - 1] != stack[0]
    ensures |stack| > 1 && stack[|stack| - 1].parentOrLeaf == stack[|stack| - 2]
    ensures Parents(stack[..|stack| - 1])
  {
    assert Member(stack, |stack| - 1);
    Prefix(stack[..|stack| - 1], stack);
  }
}
