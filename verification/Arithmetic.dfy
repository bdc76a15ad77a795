/** Quotients and remainders, and the 64-bit signed arithmetic in which the
    program keeps instants and durations. */
module Arithmetic {

  /** One second, in the nanoseconds all times are counted in. */
  const SECOND := 1_000_000_000

  const TWO63 := 0x8000_0000_0000_0000
  const TWO64 := 0x1_0000_0000_0000_0000

  /** The int64 with the low 64 bits of `x`. */
  function Signed64(x: int): int {
    (x + TWO63) % TWO64 - TWO63
  }

  lemma {:induction false} Scaled(a: nat, b: nat, n: nat)
    requires a < b
    ensures n * a + n <= n * b
    decreases b
  {
    assert n * b == n * (b - 1) + n;
    if a + 1 < b {
      Scaled(a, b - 1, n);
    }
  }

  lemma QuotientIs(x: nat, n: nat, q: nat, r: nat)
    requires n > 0 && x == n * q + r && r < n
    ensures x / n == q && x % n == r
  {
    var p := x / n;
    assert x == n * p + x % n;
    if p < q {
      Scaled(p, q, n);
    } else if q < p {
      Scaled(q, p, n);
    }
  }

  /** `d` places after `start` on a ring of `n`. */
  function Ahead(start: nat, d: nat, n: nat): (i: nat)
    requires n > 0
    ensures i < n
  {
    (start + d) % n
  }

  lemma AheadIs(start: nat, d: nat, n: nat)
    requires d < n
    ensures Ahead(start, d, n) == if start % n + d < n then start % n + d else start % n + d - n
  {
    var q, r := start / n, start % n;
    assert start == n * q + r;
    if r + d < n {
      QuotientIs(start + d, n, q, r + d);
    } else {
      assert n * (q + 1) == n * q + n;
      QuotientIs(start + d, n, q + 1, r + d - n);
    }
  }
}
