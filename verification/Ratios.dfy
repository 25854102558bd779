/** Ratios of windowed counters. A C++ double division can yield nan or inf, and the consumer
    tests for both before it uses a ratio, so the outcome of a division is explicit here. */
module Ratios {

  datatype Ratio = Finite(value: real) | Infinite | NotANumber

  /** Division of two non-negative counters. */
  function Divide(a: real, b: real): (q: Ratio)
    ensures b != 0.0 ==> q.Finite? && q.value * b == a
    ensures b == 0.0 ==> !q.Finite?
  {
    if b != 0.0 then Finite(a / b) else if a == 0.0 then NotANumber else Infinite
  }

  /** The ratio `r` of a buffer count to a work count whose work per buffer lies in [lo, hi]. */
  ghost predicate Within(r: real, lo: real, hi: real) {
    lo * r <= 1.0 <= hi * r
  }

  lemma MulLe(a: real, b: real, c: real)
    requires a <= b && 0.0 <= c
    ensures a * c <= b * c
  {}

  lemma MulPos(a: real, b: real)
    requires 0.0 < a && 0.0 < b
    ensures 0.0 < a * b
  {}

  lemma PositiveQuotient(a: real, b: real)
    requires 0.0 < a && 0.0 < b
    ensures 0.0 < a / b
  {}

  lemma DivLe(a: real, b: real, c: real)
    requires 0.0 < c
    ensures a <= b * c <==> a / c <= b
    ensures b * c <= a <==> b <= a / c
  {}

  /** A mediant stays between its parts: the quotient of two counters lies in the band that the
      counters themselves keep. */
  lemma QuotientWithin(n: real, w: real, lo: real, hi: real)
    requires 0.0 < n && 0.0 < w
    requires lo * n <= w <= hi * n
    ensures 0.0 < n / w
    ensures Within(n / w, lo, hi)
  {}

  /** Adding a contribution that is itself in the band keeps the band. */
  lemma BandAdds(n: real, w: real, lo: real, hi: real, x: real)
    requires lo * n <= w <= hi * n
    requires lo <= x <= hi
    ensures lo * (n + 1.0) <= w + x <= hi * (n + 1.0)
  {}

  /** An integer below a number is below its floor. */
  lemma FloorOf(n: int, x: real)
    requires n as real <= x
    ensures n as real <= x.Floor as real
  {
    var m := x.Floor;
    assert n as real < m as real + 1.0 == (m + 1) as real;
    assert n < m + 1;
  }
}
