/** The division and the remainder of real-time variables. */
module DpsDivision {
  import opened DpsNodes

  function Magnitude(x: int): nat {
    if x < 0 then -x else x
  }

  function Product(b: int, q: int): int {
    b * q
  }

  /** r is what is left of a when b is taken q times, cut off toward zero. */
  predicate CutOff(a: int, b: int, q: int, r: int) {
    a == Product(b, q) + r && Magnitude(r) < Magnitude(b) && (r == 0 || (r > 0 <==> a > 0))
  }

  lemma Opposite(b: int, q: int)
    ensures Product(-b, q) == -Product(b, q) && Product(b, -q) == -Product(b, q)
  {
  }

  /** For what is not negative, the division rounds as every other. */
  function Quotient(m: nat, b: int): int
    requires b != 0
  {
    m / b
  }

  lemma PositiveParts(m: nat, b: int)
    requires b != 0
    ensures 0 <= m - Product(b, Quotient(m, b)) < Magnitude(b)
    ensures m == 0 ==> Product(b, Quotient(m, b)) == 0
  {
  }

  lemma DivisionIs(a: int, b: int)
    requires b != 0
    ensures CDiv(a, b) == if a >= 0 then Quotient(Magnitude(a), b) else -Quotient(Magnitude(a), b)
    ensures CMod(a, b) == a - Product(b, CDiv(a, b))
  {
  }

  lemma QuotientParts(a: int, b: int)
    requires b != 0
    ensures CutOff(a, b, CDiv(a, b), CMod(a, b))
  {
    hide Product, CDiv, CMod, Quotient;
    var m := Magnitude(a);
    PositiveParts(m, b);
    Opposite(b, Quotient(m, b));
    DivisionIs(a, b);
  }

  lemma SmallMultiple(b: int, k: int)
    requires Magnitude(Product(b, k)) < Magnitude(b)
    ensures k == 0
  {
    hide Product;
    Opposite(b, k);
    Opposite(-b, k);
    Grows(Magnitude(b), Magnitude(k));
  }

  lemma Grows(b: nat, k: nat)
    ensures k >= 1 ==> Product(b, k) >= b
  {
    if k >= 1 {
      assert b * k == b * (k - 1) + b && b * (k - 1) >= 0;
    }
  }

  /** Quotient and remainder are the only ones that are cut off toward zero: they make up the dividend
      again, and the remainder is smaller than the divisor and has the dividend's sign. */
  lemma DividesTowardZero(a: int, b: int, q: int, r: int)
    requires b != 0
    ensures CutOff(a, b, q, r) <==> q == CDiv(a, b) && r == CMod(a, b)
  {
    hide CDiv, CMod;
    QuotientParts(a, b);
    if CutOff(a, b, q, r) { OneCutOff(a, b, q, r, CDiv(a, b), CMod(a, b)); }
  }

  lemma OneCutOff(a: int, b: int, q: int, r: int, q': int, r': int)
    requires CutOff(a, b, q, r) && CutOff(a, b, q', r')
    ensures q == q' && r == r'
  {
    hide Product;
    Spread(b, q, q');
    SmallMultiple(b, q - q');
  }

  lemma Spread(b: int, q: int, q': int)
    ensures Product(b, q - q') == Product(b, q) - Product(b, q')
  {
  }

  ghost predicate QuotientOf(a: int, b: int, q: int) {
    CutOff(a, b, q, a - Product(b, q))
  }

  ghost predicate RemainderOf(a: int, b: int, r: int) {
    exists q :: CutOff(a, b, q, r)
  }

  lemma CutOffInNumbers(a: int, b: int, q: int, r: int)
    requires b != 0 && CutOff(a, b, q, r)
    ensures a == b * q + r && (b > 0 ==> -b < r < b) && (b < 0 ==> b < r < -b)
    ensures (a >= 0 ==> r >= 0) && (a <= 0 ==> r <= 0)
  {
  }

  /** What each operation computes.  Halves, quotients and remainders are cut off toward zero, and a zero
      divisor counts as 1. */
  lemma ArithIs(op: Arith, x: int, y: int)
    ensures var r, d := ArithResult(op, x, y), if y == 0 then 1 else y;
            match op
            case RAdd => r == x + y
            case RSub => r == x - y
            case RMult => r == x * y
            case RIncr => r == x + 1
            case RDecr => r == x - 1
            case RDbl => r == x + x
            case RAssign => r == x
            case RHlv => if x >= 0 then 0 <= x - (r + r) < 2 else -2 < x - (r + r) <= 0
            case RMod2 => (x - r) % 2 == 0 && if x >= 0 then 0 <= r < 2 else -2 < r <= 0
            case RMod4 => (x - r) % 4 == 0 && if x >= 0 then 0 <= r < 4 else -4 < r <= 0
            case RDivn =>
              var rest := x - d * r;
              (if d > 0 then -d < rest < d else d < rest < -d) && (if x >= 0 then rest >= 0 else rest <= 0)
            case RModn =>
              && (exists q :: Product(d, q) == x - r) && (if d > 0 then -d < r < d else d < r < -d)
              && if x >= 0 then r >= 0 else r <= 0
  {
    hide CDiv, CMod, Product;
    if op.RDivn? || op.RModn? {
      DivisorIs(x, y);
    } else if op.RHlv? || op.RMod2? || op.RMod4? {
      SmallDivisorIs(x);
    }
  }

  lemma DivisorIs(x: int, y: int)
    ensures var d := if y == 0 then 1 else y;
            && Divisor(y) == d && Product(d, CDiv(x, d)) == d * CDiv(x, d) == x - CMod(x, d)
            && (if d > 0 then -d < CMod(x, d) < d else d < CMod(x, d) < -d)
            && if x >= 0 then CMod(x, d) >= 0 else CMod(x, d) <= 0
  {
    hide CDiv, CMod;
    QuotientParts(x, Divisor(y));
    CutOffInNumbers(x, Divisor(y), CDiv(x, Divisor(y)), CMod(x, Divisor(y)));
  }

  lemma SmallDivisorIs(x: int)
    ensures if x >= 0 then 0 <= x - (CDiv(x, 2) + CDiv(x, 2)) < 2 else -2 < x - (CDiv(x, 2) + CDiv(x, 2)) <= 0
    ensures (x - CMod(x, 2)) % 2 == 0 && if x >= 0 then 0 <= CMod(x, 2) < 2 else -2 < CMod(x, 2) <= 0
    ensures (x - CMod(x, 4)) % 4 == 0 && if x >= 0 then 0 <= CMod(x, 4) < 4 else -4 < CMod(x, 4) <= 0
  {
  }

  lemma QuotientAndRemainder(x: int, y: int)
    ensures QuotientOf(x, Divisor(y), ArithResult(RDivn, x, y))
    ensures RemainderOf(x, Divisor(y), ArithResult(RModn, x, y))
  {
    hide CDiv, CMod, Product;
    QuotientParts(x, Divisor(y));
  }
}
