/**
 * Facts about exact (rational) arithmetic that the render model needs to
 * connect JavaScript's `Math.floor` / `Math.round` over quotients with
 * integer division.
 */
module Arith {

  type pos = n: int | n > 0 witness 1

  /** `Math.round`: the nearest integer, halves rounded up. */
  function RoundHalfUp(x: real): (r: int)
    ensures r as real - 0.5 <= x < r as real + 0.5
  {
    (x + 0.5).Floor
  }

  /** Flooring a quotient of integers is integer division (Dafny's `/` is the floor for a positive divisor). */
  lemma FloorOfQuotient(p: int, q: int)
    requires q > 0
    ensures (p as real / q as real).Floor == p / q
  {
    var k, m := p / q, p % q;
    assert p == k * q + m && 0 <= m < q;
    assert p as real == k as real * q as real + m as real;
    assert p as real / q as real == k as real + m as real / q as real;
    assert 0.0 <= m as real / q as real < 1.0;
  }

  /** Flooring is monotone. */
  lemma FloorMonotone(x: real, y: real)
    requires x <= y
    ensures x.Floor <= y.Floor
  {
  }

  /** A real between two integers rounds to a value between them. */
  lemma RoundBetween(x: real, lo: int, hi: int)
    requires lo as real <= x <= hi as real
    ensures lo <= RoundHalfUp(x) <= hi
  {
  }

  /** An integer rounds to itself. */
  lemma RoundOfInteger(n: int)
    ensures RoundHalfUp(n as real) == n
  {
  }

  /** Row-major cell index `(y * cols + x) * 4` leaves room for four channels. */
  lemma CellIndexInBounds(rows: nat, cols: nat, x: nat, y: nat)
    requires x < cols && y < rows
    ensures (y * cols + x) * 4 + 3 < 4 * rows * cols
  {
    assert y * cols + x < (y + 1) * cols;
    assert (y + 1) * cols <= rows * cols by {
      assert y + 1 <= rows;
      MulMonotone(y + 1, rows, cols);
    }
  }

  /** A non-negative integer quotient is zero exactly when the dividend is below the divisor. */
  lemma QuotientZeroIff(p: nat, q: int)
    requires q > 0
    ensures p / q == 0 <==> p < q
  {
    if p >= q {
      assert p == (p / q) * q + p % q;
    }
  }

  /** Multiplying both sides of `x < a / b` by a positive `b`. */
  lemma BelowQuotient(x: real, a: real, b: real)
    requires b > 0.0
    ensures x < a / b <==> x * b < a
    ensures x <= a / b <==> x * b <= a
  {
    assert (a / b) * b == a;
  }

  lemma MulMonotone(a: nat, b: nat, c: nat)
    requires a <= b
    ensures a * c <= b * c
  {
  }
}
