/** Small facts about multiplication and floor division by a positive number. */
module Arith {

  lemma MulLe(a: int, b: int, k: int)
    requires a <= b && 0 <= k
    ensures a * k <= b * k
  {}

  lemma DivBounds(n: int, b: int)
    requires b > 0
    ensures n / b * b <= n < n / b * b + b
  {}

  lemma DivUnique(n: int, b: int, q: int)
    requires b > 0 && q * b <= n < q * b + b
    ensures n / b == q
  {
    var p := n / b;
    DivBounds(n, b);
    if p < q {
      MulLe(p + 1, q, b);
    } else if p > q {
      MulLe(q + 1, p, b);
    }
  }

  lemma DivMul(q: int, b: int)
    requires b > 0
    ensures q * b / b == q
  {
    DivUnique(q * b, b, q);
  }

  lemma DivMono(m: int, n: int, b: int)
    requires b > 0 && m <= n
    ensures m / b <= n / b
  {
    DivBounds(m, b);
    DivBounds(n, b);
    if m / b > n / b {
      MulLe(n / b + 1, m / b, b);
    }
  }

  /** Quotient and remainder of a number given as q * b + r. */
  lemma Split(q: int, r: int, b: int)
    requires 0 <= r < b
    ensures (q * b + r) / b == q && (q * b + r) % b == r
  {
    DivUnique(q * b + r, b, q);
    var n := q * b + r;
    assert n == n / b * b + n % b;
  }

  lemma Whole(n: int, b: int)
    requires b > 0
    ensures n == n / b * b + n % b && 0 <= n % b < b
  {}

  lemma ModSmall(n: int, b: int)
    requires 0 <= n < b
    ensures n % b == n
  {}

  lemma ModStep(n: int, b: int)
    requires b > 0
    ensures n % b == (n - b) % b
  {
    var q, r := (n - b) / b, (n - b) % b;
    Whole(n - b, b);
    assert (q + 1) * b + r == n;
    Split(q + 1, r, b);
  }

  /** Multiples of b differ by a multiple of b. */
  lemma ModAlike(m: int, n: int, b: int)
    requires b > 0 && m % b == 0 && n % b == 0
    ensures (n - m) % b == 0
  {
    Whole(m, b);
    Whole(n, b);
    assert n - m == (n / b - m / b) * b + 0;
    Split(n / b - m / b, 0, b);
  }

  /** The least multiple of b beyond b is 2 * b. */
  lemma SecondMultiple(n: int, b: int)
    requires b > 0 && n > 0 && n % b == 0 && n != b
    ensures n >= 2 * b
  {
    Whole(n, b);
    if n / b < 2 {
      MulLe(n / b, 1, b);
    }
  }
}
