/**
 Runs of one machine followed by another: if every clock of the first is some number of steps of
 the second, then so is every run.
 */
module Simulation {

  /** `p` after one clock for each input in `xs`. */
  function Iterate<P, X>(tick: (P, X) -> P, p: P, xs: seq<X>): P
    decreases |xs|
  {
    if xs == [] then p else Iterate(tick, tick(p, xs[0]), xs[1..])
  }

  /** Sum of the weights of the states a run clocks from. */
  function Total<P, X>(tick: (P, X) -> P, weight: P -> nat, p: P, xs: seq<X>): nat
    decreases |xs|
  {
    if xs == [] then 0 else weight(p) + Total(tick, weight, tick(p, xs[0]), xs[1..])
  }

  lemma {:induction false} Simulates<P(!new), X(!new), A(!new)>(
    tick: (P, X) -> P, weight: P -> nat, steps: (A, nat) -> A, rel: (P, A) -> bool, p: P, a: A, xs: seq<X>)
    requires forall q, b, x :: rel(q, b) ==> rel(tick(q, x), steps(b, weight(q)))
    requires forall b :: steps(b, 0) == b
    requires forall b, m: nat, n: nat :: steps(steps(b, m), n) == steps(b, m + n)
    requires rel(p, a)
    ensures rel(Iterate(tick, p, xs), steps(a, Total(tick, weight, p, xs)))
    decreases |xs|
  {
    if xs == [] {
    } else {
      Simulates(tick, weight, steps, rel, tick(p, xs[0]), steps(a, weight(p)), xs[1..]);
    }
  }

  lemma {:induction false} IterateConcat<P, X>(tick: (P, X) -> P, p: P, xs: seq<X>, ys: seq<X>)
    ensures Iterate(tick, p, xs + ys) == Iterate(tick, Iterate(tick, p, xs), ys)
    decreases |xs|
  {
    if xs == [] {
      assert xs + ys == ys;
    } else {
      assert (xs + ys)[1..] == xs[1..] + ys;
      IterateConcat(tick, tick(p, xs[0]), xs[1..], ys);
    }
  }

  /** `f` applied `n` times. */
  function Repeat<T>(f: T -> T, x: T, n: nat): T {
    if n == 0 then x else f(Repeat(f, x, n - 1))
  }

  lemma {:induction false} RepeatAdd<T>(f: T -> T, x: T, m: nat, n: nat)
    ensures Repeat(f, Repeat(f, x, m), n) == Repeat(f, x, m + n)
  {
    if n == 0 {
    } else {
      RepeatAdd(f, x, m, n - 1);
    }
  }

  lemma {:induction false} RepeatFixed<T>(f: T -> T, x: T, n: nat)
    requires f(x) == x
    ensures Repeat(f, x, n) == x
  {
    if n == 0 {
    } else {
      RepeatFixed(f, x, n - 1);
    }
  }
}
