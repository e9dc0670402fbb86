/** Iterating a step and folding inputs into a state, for any step. */
module Iteration {
  function Iterate<T>(f: T -> T, x: T, n: nat): T
    decreases n
  {
    if n == 0 then x else Iterate(f, f(x), n - 1)
  }

  function Fold<T, O>(step: (T, O) -> T, x: T, input: seq<O>): T
    decreases |input|
  {
    if input == [] then x else Fold(step, step(x, input[0]), input[1..])
  }

  lemma {:induction false} IterateSum<T>(f: T -> T, x: T, m: nat, n: nat)
    ensures Iterate(f, x, m + n) == Iterate(f, Iterate(f, x, m), n)
    decreases m
  {
    if m > 0 { IterateSum(f, f(x), m - 1, n); }
  }

  /** What n steps from x take along. */
  function Gather<T, O>(f: T -> T, take: T -> seq<O>, x: T, n: nat): seq<O>
    decreases n
  {
    if n == 0 then [] else take(x) + Gather(f, take, f(x), n - 1)
  }

  lemma {:induction false} GatherSum<T, O>(f: T -> T, take: T -> seq<O>, x: T, m: nat, n: nat)
    ensures Gather(f, take, x, m + n) == Gather(f, take, x, m) + Gather(f, take, Iterate(f, x, m), n)
    decreases m
  {
    if m > 0 {
      GatherSum(f, take, f(x), m - 1, n);
      assert take(x) + (Gather(f, take, f(x), m - 1) + Gather(f, take, Iterate(f, x, m), n))
        == (take(x) + Gather(f, take, f(x), m - 1)) + Gather(f, take, Iterate(f, x, m), n);
    }
  }

  lemma {:induction false} IterateInjective<T(!new)>(f: T -> T, a: T, b: T, n: nat)
    requires forall x, y :: f(x) == f(y) ==> x == y
    requires Iterate(f, a, n) == Iterate(f, b, n)
    ensures a == b
    decreases n
  {
    if n > 0 { IterateInjective(f, f(a), f(b), n - 1); }
  }

  /** A step that distributes over an operation still does after any number of turns. */
  lemma {:induction false} IterateDistributes<T(!new)>(f: T -> T, op: (T, T) -> T, a: T, b: T, n: nat)
    requires forall x, y :: f(op(x, y)) == op(f(x), f(y))
    ensures Iterate(f, op(a, b), n) == op(Iterate(f, a, n), Iterate(f, b, n))
    decreases n
  {
    if n > 0 { IterateDistributes(f, op, f(a), f(b), n - 1); }
  }

  lemma {:induction false} FoldAppend<T, O>(step: (T, O) -> T, x: T, a: seq<O>, b: seq<O>)
    ensures Fold(step, x, a + b) == Fold(step, Fold(step, x, a), b)
    decreases |a|
  {
    if a == [] {
      assert a + b == b;
    } else {
      assert (a + b)[1..] == a[1..] + b;
      FoldAppend(step, step(x, a[0]), a[1..], b);
    }
  }

  lemma {:induction false} FoldInjective<T(!new), O(!new)>(step: (T, O) -> T, x: T, y: T, input: seq<O>)
    requires forall a, b, i :: step(a, i) == step(b, i) ==> a == b
    requires Fold(step, x, input) == Fold(step, y, input)
    ensures x == y
    decreases |input|
  {
    if input != [] { FoldInjective(step, step(x, input[0]), step(y, input[0]), input[1..]); }
  }
}
