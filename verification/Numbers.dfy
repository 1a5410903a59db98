/** Python's min, max and int, and how products of reals compare. */
module Numbers {
  function Min(a: real, b: real): real {
    if a < b then a else b
  }

  function MinInt(a: int, b: int): int {
    if a < b then a else b
  }

  function MaxInt(a: int, b: int): int {
    if a > b then a else b
  }

  function Max0(x: int): int {
    if x > 0 then x else 0
  }

  /** int(): towards zero. */
  function Truncate(x: real): int {
    if x >= 0.0 then x.Floor else -(-x).Floor
  }

  /** r is x in whole seconds, rounded down, and 0 when x is negative. */
  ghost predicate WholeSeconds(r: int, x: real) {
    if x < 0.0 then r == 0 else r as real <= x < r as real + 1.0
  }

  lemma TruncateToSeconds(x: real)
    ensures WholeSeconds(Max0(Truncate(x)), x)
  {
  }

  lemma MulNatural(a: real, b: real)
    requires a >= 0.0 && b >= 0.0
    ensures a * b >= 0.0
  {
  }

  lemma MulPositive(a: real, b: real)
    requires a > 0.0 && b > 0.0
    ensures a * b > 0.0
  {
  }

  lemma MulDifference(a: real, b: real, w: real)
    ensures (b - a) * w == b * w - a * w
  {
  }

  lemma MulMonotone(a: real, b: real, w: real)
    requires a <= b && w >= 0.0
    ensures a * w <= b * w
  {
    MulNatural(b - a, w);
    MulDifference(a, b, w);
  }

  lemma MulStrict(a: real, b: real, w: real)
    requires a < b && w > 0.0
    ensures a * w < b * w
  {
    MulPositive(b - a, w);
    MulDifference(a, b, w);
  }
}
