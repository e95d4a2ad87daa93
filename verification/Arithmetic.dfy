/** Facts about products, quotients and remainders of natural numbers. */
module Arithmetic {
  lemma MulAtLeast(k: nat, len: nat)
    requires k >= 1
    ensures k * len >= len
  {
  }

  lemma MulStep(n: nat, m: nat)
    requires n >= 1
    ensures n * m == m + (n - 1) * m
  {
  }

  lemma ModUnique(a: nat, q: nat, r: nat, len: nat)
    requires r < len && a == q * len + r
    ensures a % len == r && a / len == q
  {
    var q' := a / len;
    assert a == q' * len + a % len;
    if q > q' {
      assert (q - q') * len == q * len - q' * len;
      MulAtLeast(q - q', len);
    } else if q < q' {
      assert (q' - q) * len == q' * len - q * len;
      MulAtLeast(q' - q, len);
    }
  }

  lemma ModSum(i: nat, shift: nat, len: nat)
    requires len >= 1 && shift % len == 0
    ensures (i + shift) % len == i % len
  {
    ModUnique(i + shift, i / len + shift / len, i % len, len);
  }

  lemma ModProduct(k: nat, m: nat, len: nat)
    requires len >= 1 && m % len == 0
    ensures (k * m) % len == 0
  {
    assert k * m == (k * (m / len)) * len + 0;
    ModUnique(k * m, k * (m / len), 0, len);
  }

  lemma Associate(a: int, b: int, c: int)
    ensures a * (b * c) == a * b * c
  {
  }

  lemma Distribute(a: int, b: int, c: int)
    ensures (a + b) * c == a * c + b * c
  {
  }

  lemma MulAtMost(a: nat, b: nat, c: nat)
    requires a <= b
    ensures a * c <= b * c
  {
    Distribute(b - a, a, c);
  }

  lemma MulPositive(a: nat, b: nat)
    requires a > 0 && b > 0
    ensures a * b > 0
  {
    MulAtLeast(a, b);
  }

  lemma QuotientRemainder(n: nat, d: nat)
    requires d > 0
    ensures n == n / d * d + n % d && n % d < d
  {
  }

  lemma OneDivisorLess(g: nat, p: nat)
    requires 0 < p <= g
    ensures g / p == (g - p) / p + 1 && g % p == (g - p) % p
  {
    QuotientRemainder(g - p, p);
    Distribute((g - p) / p, 1, p);
    ModUnique(g, (g - p) / p + 1, (g - p) % p, p);
  }

  lemma LessThanDivisor(g: nat, p: nat)
    requires g < p
    ensures g / p == 0 && g % p == g
  {
    ModUnique(g, 0, g, p);
  }

  /** n in base a, and its quotient in base b, give n in base b * a. */
  lemma TwoDigits(n: nat, a: nat, b: nat, q: nat, r: nat, k: nat, s: nat)
    requires n == q * a + r && r < a && q == k * b + s && s < b
    ensures n == k * (b * a) + (s * a + r) && s * a + r < b * a
  {
    Distribute(k * b, s, a);
    Associate(k, b, a);
    MulAtMost(s, b - 1, a);
    MulStep(b, a);
  }

  lemma DivTwice(n: nat, a: nat, b: nat)
    requires a > 0 && b > 0
    ensures b * a > 0 && n / a / b == n / (b * a)
  {
    QuotientRemainder(n, a);
    QuotientRemainder(n / a, b);
    TwoDigitsDiv(n, a, b, n / a, n % a, n / a / b, n / a % b);
  }

  lemma TwoDigitsDiv(n: nat, a: nat, b: nat, q: nat, r: nat, k: nat, s: nat)
    requires n == q * a + r && r < a && q == k * b + s && s < b
    ensures b * a > 0 && n / (b * a) == k
  {
    TwoDigits(n, a, b, q, r, k, s);
    ModUnique(n, k, s * a + r, b * a);
  }

  /** A multiple of s * q taken away leaves f / q % s as it was. */
  lemma DropMultiple(f: nat, k: nat, s: nat, q: nat)
    requires s > 0 && q > 0 && k > 0
    ensures k * (s * q) > 0 && f % (k * (s * q)) / q % s == f / q % s
  {
    var p := k * (s * q);
    MulPositive(s, q);
    MulPositive(k, s * q);
    QuotientRemainder(f, p);
    DropAt(f, k, s, q, f / p, f % p);
  }

  lemma DropAt(f: nat, k: nat, s: nat, q: nat, t: nat, r: nat)
    requires s > 0 && q > 0 && f == t * (k * (s * q)) + r
    ensures r / q % s == f / q % s
  {
    QuotientRemainder(r, q);
    DropDigits(f, k, s, q, t, r, r / q, r % q);
    QuotientRemainder(r / q, s);
    SameDigit(t * k, s, r / q, r / q / s, r / q % s);
  }

  lemma SameDigit(m: nat, s: nat, x: nat, u: nat, v: nat)
    requires x == u * s + v && v < s
    ensures (m * s + x) % s == v
  {
    Distribute(m, u, s);
    ModUnique(m * s + x, m + u, v, s);
  }

  lemma DropDigits(f: nat, k: nat, s: nat, q: nat, t: nat, r: nat, x: nat, y: nat)
    requires f == t * (k * (s * q)) + r && r == x * q + y && y < q
    ensures f / q == t * k * s + x
  {
    Regroup(t, k, s, q);
    Distribute(t * k * s, x, q);
    ModUnique(f, t * k * s + x, y, q);
  }

  lemma Regroup(t: nat, k: nat, s: nat, q: nat)
    ensures t * (k * (s * q)) == t * k * s * q
  {
    Associate(t, k, s * q);
    Associate(t * k, s, q);
  }

  lemma Quotient(f: nat, p: nat, n: nat)
    requires p > 0 && f < n * p
    ensures f / p < n
  {
    if f / p >= n { MulAtMost(n, f / p, p); }
  }
}
