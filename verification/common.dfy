/** Failure-compatible wrappers shared by every module. */
module Common {

  datatype Option<+T> = None | Some(value: T)

  datatype Result<+T, +E> = Ok(value: T) | Err(error: E) {
    predicate IsFailure() {
      Err?
    }

    function PropagateFailure<U>(): Result<U, E>
      requires Err?
    {
      Err(error)
    }

    function Extract(): T
      requires Ok?
    {
      value
    }
  }

  function Min(a: int, b: int): int {
    if a <= b then a else b
  }

  function Max(a: int, b: int): int {
    if a >= b then a else b
  }

  /** A set that is not empty has a member. */
  lemma Inhabited<T>(s: set<T>) returns (x: T)
    requires s != {}
    ensures x in s
  {
    x :| x in s;
  }

  lemma {:induction false} SubsetSize<T>(a: set<T>, b: set<T>)
    requires a <= b
    ensures |a| <= |b| && (|a| == |b| ==> a == b)
  {
    if a != {} {
      var x := Inhabited(a);
      SubsetSize(a - {x}, b - {x});
      assert a == a - {x} + {x} && b == b - {x} + {x};
    }
  }

  /** What holds at one state of a sequence and is kept by every step from there holds later on. */
  lemma {:induction false} Along<S>(states: seq<S>, i: nat, j: nat, p: S -> bool)
    requires i <= j < |states| && p(states[i])
    requires forall k | i <= k < j && p(states[k]) :: p(states[k + 1])
    ensures p(states[j])
    decreases j
  {
    if i < j {
      Along(states, i, j - 1, p);
      assert p(states[j - 1 + 1]);
    }
  }
}
