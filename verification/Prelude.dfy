/** Types and functions shared by the components. */
module Prelude {
  datatype Option<+T> = None | Some(value: T)

  datatype Result<+T, +E> = Ok(value: T) | Err(error: E)

  /** Nanoseconds on a non-decreasing clock. */
  type Time = int

  function Min(a: int, b: int): int { if a < b then a else b }

  function Max(a: int, b: int): int { if a < b then b else a }

  function SetOf<T>(o: Option<T>): set<T> {
    if o.Some? then {o.value} else {}
  }

  /** How many numbers from `a` up to, not including, `b` satisfy `p`. */
  function Count(p: nat -> bool, a: nat, b: nat): nat
    requires a <= b
    decreases b
  {
    if a == b then 0 else Count(p, a, b - 1) + if p(b - 1) then 1 else 0
  }

  lemma {:induction false} CountAgrees(p: nat -> bool, q: nat -> bool, a: nat, b: nat)
    requires a <= b && forall i: nat :: a <= i < b ==> p(i) == q(i)
    ensures Count(p, a, b) == Count(q, a, b)
    decreases b
  {
    if a < b {
      CountAgrees(p, q, a, b - 1);
    }
  }

  /** The pieces put together. */
  function Concat<T>(us: seq<seq<T>>): seq<T> {
    if us == [] then [] else us[0] + Concat(us[1..])
  }

  lemma SumIsAssociative<T>(a: seq<T>, b: seq<T>, c: seq<T>)
    ensures a + (b + c) == (a + b) + c
  {
  }

  lemma {:induction false} ConcatOfSum<T>(us: seq<seq<T>>, vs: seq<seq<T>>)
    ensures Concat(us + vs) == Concat(us) + Concat(vs)
  {
    if us == [] {
      assert us + vs == vs;
    } else {
      ConcatOfSum(us[1..], vs);
      assert (us + vs)[1..] == us[1..] + vs;
      SumIsAssociative(us[0], Concat(us[1..]), Concat(vs));
    }
  }
}
