/** Sums over finite sets, in any order. */
module Sums {

  ghost function Sum<T>(s: set<T>, weight: T -> int): int {
    if s == {} then 0
    else
      var x :| x in s;
      weight(x) + Sum(s - {x}, weight)
  }

  lemma {:induction false} SumPick<T>(s: set<T>, weight: T -> int, x: T)
    requires x in s
    ensures Sum(s, weight) == weight(x) + Sum(s - {x}, weight)
    decreases s
  {
    var y :| y in s && Sum(s, weight) == weight(y) + Sum(s - {y}, weight);
    if x != y {
      SumPick(s - {y}, weight, x);
      SumPick(s - {x}, weight, y);
      assert s - {x} - {y} == s - {y} - {x};
    }
  }

  lemma {:induction false} SumSame<T>(s: set<T>, weight: T -> int, weight': T -> int)
    requires forall x :: x in s ==> weight(x) == weight'(x)
    ensures Sum(s, weight) == Sum(s, weight')
    decreases s
  {
    if s != {} {
      var x :| x in s;
      SumPick(s, weight, x);
      SumPick(s, weight', x);
      SumSame(s - {x}, weight, weight');
    }
  }

  lemma {:induction false} SumBounds<T>(s: set<T>, weight: T -> int, low: int, high: int)
    requires forall x :: x in s ==> low <= weight(x) <= high
    ensures low * |s| <= Sum(s, weight) <= high * |s|
    decreases s
  {
    if s != {} {
      var x :| x in s;
      SumPick(s, weight, x);
      SumBounds(s - {x}, weight, low, high);
      MulNext(low, |s - {x}|);
      MulNext(high, |s - {x}|);
      assert |s| == |s - {x}| + 1;
    }
  }

  lemma MulNext(k: int, n: int)
    ensures k * (n + 1) == k * n + k
  {
  }
}
