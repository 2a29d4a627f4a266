/** Exact money arithmetic: the two-decimal rounding the frontend applies to
    balances and the 0.01 tolerance it compares them against. */
module Money {

  /** Balances whose rounded magnitude is at most this are considered settled. */
  const Epsilon: real := 0.01

  /** `x` is a whole number of cents. */
  predicate IsCents(x: real) {
    (x * 100.0).Floor as real == x * 100.0
  }

  /** `Math.round(x * 100) / 100`: JavaScript's `Math.round` rounds halves
      toward positive infinity, i.e. it is `Floor(y + 0.5)`. */
  function Round2(x: real): (r: real)
    ensures x - 0.005 < r <= x + 0.005
    ensures IsCents(r)
  {
    var cents := (x * 100.0 + 0.5).Floor;
    assert (cents as real / 100.0) * 100.0 == cents as real;
    cents as real / 100.0
  }

  /** A whole number of cents strictly inside (-0.02, 0.02) is within the tolerance. */
  lemma CentsNearZeroAreSettled(r: real)
    requires IsCents(r) && -0.02 < r < 0.02
    ensures -Epsilon <= r <= Epsilon
  {
    var c := (r * 100.0).Floor;
    assert -2.0 < c as real < 2.0;
    assert -1 <= c <= 1;
  }

  /** A raw amount within the tolerance still rounds to an amount within it. */
  lemma RoundingKeepsSettled(x: real)
    requires -Epsilon <= x <= Epsilon
    ensures -Epsilon <= Round2(x) <= Epsilon
  {
    CentsNearZeroAreSettled(Round2(x));
  }

  function Min(a: real, b: real): (m: real)
    ensures m <= a && m <= b
    ensures m == a || m == b
  {
    if a <= b then a else b
  }
}
