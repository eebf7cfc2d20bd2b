/** Sequences without repetition and order-preserving selection, shared by the waiter lists. */
module Lists {

  datatype Option<+T> = None | Some(value: T)

  /** The head pointer of a list: null when the list is empty. */
  function Head<T>(xs: seq<T>): Option<T> {
    if xs == [] then None else Some(xs[0])
  }

  ghost predicate NoDup<T>(xs: seq<T>) {
    forall i, j :: 0 <= i < j < |xs| ==> xs[i] != xs[j]
  }

  /** The elements of `xs` that satisfy `p`, in their original order. */
  function Select<T>(xs: seq<T>, p: T -> bool): seq<T> {
    if xs == [] then []
    else if p(xs[0]) then [xs[0]] + Select(xs[1..], p)
    else Select(xs[1..], p)
  }

  lemma {:induction false} SelectMembers<T>(xs: seq<T>, p: T -> bool)
    ensures forall x :: x in Select(xs, p) <==> x in xs && p(x)
  {
    if xs != [] {
      SelectMembers(xs[1..], p);
      assert xs == [xs[0]] + xs[1..];
    }
  }

  lemma {:induction false} SelectNoDup<T>(xs: seq<T>, p: T -> bool)
    requires NoDup(xs)
    ensures NoDup(Select(xs, p))
  {
    if xs != [] {
      SelectNoDup(xs[1..], p);
      SelectMembers(xs[1..], p);
    }
  }

  lemma NoDupConcat<T>(xs: seq<T>, ys: seq<T>)
    requires NoDup(xs) && NoDup(ys)
    requires forall x :: x in xs ==> x !in ys
    ensures NoDup(xs + ys)
  {
    var zs := xs + ys;
    forall i, j | 0 <= i < j < |zs| ensures zs[i] != zs[j] {
      assert i < |xs| ==> xs[i] in xs;
      assert j >= |xs| ==> zs[j] == ys[j - |xs|] && zs[j] in ys;
    }
  }
}
