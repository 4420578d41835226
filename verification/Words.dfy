/** Go's fixed-width integer arithmetic. */
module Words {

  const MIN_INT64: int := -0x8000_0000_0000_0000
  const MAX_INT64: int := 0x7FFF_FFFF_FFFF_FFFF
  const TWO_64: int := 0x1_0000_0000_0000_0000

  /** The value an `int64` holds after an operation whose exact result is `x`. */
  function I64(x: int): (r: int)
    ensures MIN_INT64 <= r <= MAX_INT64
    ensures MIN_INT64 <= x <= MAX_INT64 ==> r == x
    decreases if x > MAX_INT64 then x - MIN_INT64 else MAX_INT64 - x
  {
    if x > MAX_INT64 then I64(x - TWO_64)
    else if x < MIN_INT64 then I64(x + TWO_64)
    else x
  }

  /** Wrapping changes a value by a multiple of the size of the word. */
  lemma {:induction false} I64Wraps(x: int) returns (k: int)
    ensures I64(x) == x + k * TWO_64
    decreases if x > MAX_INT64 then x - MIN_INT64 else MAX_INT64 - x
  {
    k := 0;
    if x > MAX_INT64 {
      k := I64Wraps(x - TWO_64);
      k := k - 1;
    } else if x < MIN_INT64 {
      k := I64Wraps(x + TWO_64);
      k := k + 1;
    }
  }

  /** Wrapping early or late makes no difference to a sum. */
  lemma {:induction false} I64Absorbs(a: int, b: int)
    ensures I64(I64(a) + b) == I64(a + b)
    decreases if a > MAX_INT64 then a - MIN_INT64 else MAX_INT64 - a
  {
    if a > MAX_INT64 {
      I64Absorbs(a - TWO_64, b);
    } else if a < MIN_INT64 {
      I64Absorbs(a + TWO_64, b);
    }
  }

  function Abs(x: int): nat {
    if x < 0 then -x else x
  }

  /** Go's integer division, which truncates toward zero. */
  function Quotient(a: int, b: int): (q: int)
    requires b != 0
  {
    if (a >= 0) == (b > 0) then Abs(a) / Abs(b) else -(Abs(a) / Abs(b))
  }

  lemma SignsCancel(a: int, b: int, q: int)
    requires b != 0
    ensures b * (if (a >= 0) == (b > 0) then q else -q) == if a >= 0 then Abs(b) * q else -(Abs(b) * q)
  {
  }

  lemma DivisionLeaves(n: int, d: int)
    requires n >= 0 && d > 0
    ensures 0 <= n - d * (n / d) < d && 0 <= d * (n / d)
  {
    assert n == d * (n / d) + n % d;
  }

  /** What is left over is smaller than the divisor and has the sign of what is divided, whatever the signs. */
  lemma QuotientTruncates(a: int, b: int)
    requires b != 0
    ensures var rest := a - b * Quotient(a, b); Abs(rest) < Abs(b) && (rest > 0 ==> a > 0) && (rest < 0 ==> a < 0)
  {
    DivisionLeaves(Abs(a), Abs(b));
    SignsCancel(a, b, Abs(a) / Abs(b));
  }
}
