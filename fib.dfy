/** examples/fib.py: two Fibonacci functions written for the transpiler,
    one doubly recursive and one tail recursive. Python's integers are
    unbounded, as Dafny's are. */
module Fib {

  /** The `bend` decorator: a hint to the transpiler that hands its
      argument back unchanged. */
  function Bend<T>(fn: T): T
  {
    fn
  }

  /** `fib_recursive(n)` on non-negative n: cases 0 and 1, then the sum of
      the two before. */
  function FibRecursive(n: nat): nat
  {
    if n == 0 then 0
    else if n == 1 then 1
    else FibRecursive(n - 2) + FibRecursive(n - 1)
  }

  /** The inner `go(a, b, n)` of `fib_iterative`. */
  function Go(a: int, b: int, n: nat): int
    decreases n
  {
    if n == 0 then a else Go(b, a + b, n - 1)
  }

  /** `fib_iterative(n)`: `go` through the `bend` decorator, from 0 and 1. */
  function FibIterative(n: nat): int
  {
    Bend(Go)(0, 1, n)
  }

  /** Started from two consecutive Fibonacci numbers, `go` walks n steps
      along the sequence. */
  lemma {:induction false} GoShift(k: nat, n: nat)
    ensures Go(FibRecursive(k), FibRecursive(k + 1), n) == FibRecursive(k + n)
    decreases n
  {
    if n > 0 {
      assert FibRecursive(k + 2) == FibRecursive(k) + FibRecursive(k + 1);
      GoShift(k + 1, n - 1);
    }
  }

  /** Both functions compute the nth Fibonacci number. */
  lemma FibEquivalence(n: nat)
    ensures FibIterative(n) == FibRecursive(n)
  {
    GoShift(0, n);
  }

  /** The tail-recursive loop in closed form: n steps from any pair. */
  lemma {:induction false} GoLinear(a: int, b: int, n: nat)
    ensures n >= 1 ==> Go(a, b, n) == FibRecursive(n - 1) * a + FibRecursive(n) * b
    decreases n
  {
    if n == 1 {
      assert Go(a, b, 1) == Go(b, a + b, 0) == b;
    } else if n >= 2 {
      GoLinear(b, a + b, n - 1);
      Regroup(FibRecursive(n - 2), FibRecursive(n - 1), a, b);
    }
  }

  /** The arithmetic of one step of `GoLinear`. */
  lemma Regroup(f0: int, f1: int, a: int, b: int)
    ensures f0 * b + f1 * (a + b) == f1 * a + (f0 + f1) * b
  {
    calc {
      f0 * b + f1 * (a + b);
      { assert f1 * (a + b) == f1 * a + f1 * b; }
      f0 * b + f1 * a + f1 * b;
      { assert f0 * b + f1 * b == (f0 + f1) * b; }
      f1 * a + (f0 + f1) * b;
    }
  }
}
