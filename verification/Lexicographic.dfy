/** The order Python gives strings and Redis gives the members of a sorted set
    that share a score: character by character, a prefix first. */
module Lexicographic {

  predicate Le(a: string, b: string) {
    a == [] || (b != [] && (a[0] < b[0] || (a[0] == b[0] && Le(a[1..], b[1..]))))
  }

  predicate Lt(a: string, b: string) {
    a != b && Le(a, b)
  }

  /** The strings agree up to k, and there a ends, or has the smaller character. */
  ghost predicate FirstDifference(a: string, b: string, k: int) {
    0 <= k <= |a| && k <= |b| && a[..k] == b[..k] && (k == |a| || (k < |b| && a[k] < b[k]))
  }

  lemma {:induction false} LeIsLexicographic(a: string, b: string)
    ensures Le(a, b) <==> exists k :: FirstDifference(a, b, k)
  {
    if a == [] {
      assert FirstDifference(a, b, 0);
    } else if b != [] {
      LeIsLexicographic(a[1..], b[1..]);
      if a[0] == b[0] {
        if k :| FirstDifference(a[1..], b[1..], k) {
          assert a[..k + 1] == [a[0]] + a[1..][..k] && b[..k + 1] == [b[0]] + b[1..][..k];
          assert FirstDifference(a, b, k + 1);
        }
        if k :| FirstDifference(a, b, k) {
          assert k > 0 && a[1..][..k - 1] == a[..k][1..] && b[1..][..k - 1] == b[..k][1..];
          assert FirstDifference(a[1..], b[1..], k - 1);
        }
      } else {
        assert a[0] < b[0] ==> FirstDifference(a, b, 0);
        assert forall k :: FirstDifference(a, b, k) && k > 0 ==> a[0] == a[..k][0] == b[..k][0] == b[0];
      }
    }
  }

  lemma {:induction false} LeTotal(a: string, b: string)
    ensures Le(a, b) || Le(b, a)
  {
    if a != [] && b != [] && a[0] == b[0] {
      LeTotal(a[1..], b[1..]);
    }
  }

  lemma {:induction false} LeAntisymmetric(a: string, b: string)
    requires Le(a, b) && Le(b, a)
    ensures a == b
  {
    if a != [] {
      LeAntisymmetric(a[1..], b[1..]);
      assert a == [a[0]] + a[1..] && b == [b[0]] + b[1..];
    }
  }

  lemma {:induction false} LeTransitive(a: string, b: string, c: string)
    requires Le(a, b) && Le(b, c)
    ensures Le(a, c)
  {
    if a != [] && a[0] == b[0] == c[0] {
      LeTransitive(a[1..], b[1..], c[1..]);
    }
  }

  ghost predicate IsLeast(s: set<string>, m: string) {
    m in s && forall n :: n in s ==> Le(m, n)
  }

  lemma {:induction false} LeastExists(s: set<string>)
    requires s != {}
    ensures exists m :: IsLeast(s, m)
    decreases |s|
  {
    var x :| x in s;
    LeTotal(x, x);
    if s == {x} {
      assert IsLeast(s, x);
    } else {
      var rest := s - {x};
      LeastExists(rest);
      var m :| IsLeast(rest, m);
      LeTotal(x, m);
      var least := if Le(x, m) then x else m;
      forall n | n in s ensures Le(least, n) {
        if n in rest && Le(x, m) {
          LeTransitive(x, m, n);
        }
      }
      assert IsLeast(s, least);
    }
  }

  ghost predicate StrictlySorted(names: seq<string>) {
    forall i, j :: 0 <= i < j < |names| ==> Lt(names[i], names[j])
  }

  /** Python's sorted() on a set: its elements, each once, in order. */
  method Sorted(names: set<string>) returns (r: seq<string>)
    ensures StrictlySorted(r)
    ensures forall n :: n in r <==> n in names
  {
    r := [];
    var rest := names;
    while rest != {}
      invariant forall n :: n in names <==> n in r || n in rest
      invariant forall n :: n in r ==> n !in rest
      invariant forall i, n :: 0 <= i < |r| && n in rest ==> Le(r[i], n)
      invariant StrictlySorted(r)
      decreases rest
    {
      LeastExists(rest);
      var m :| m in rest && forall n :: n in rest ==> Le(m, n);
      r := r + [m];
      rest := rest - {m};
    }
  }
}
