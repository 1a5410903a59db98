/** Sequences of one element. */
module Sequences {
  function Repeated<T>(x: T, n: nat): (r: seq<T>)
    ensures |r| == n && forall i :: 0 <= i < n ==> r[i] == x
  {
    seq(n, _ => x)
  }

  lemma RepeatedNext<T>(x: T, n: nat)
    ensures Repeated(x, n + 1) == Repeated(x, n) + [x]
  {
  }
}
