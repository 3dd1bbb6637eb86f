/**
  The arithmetic of reading a duration: a count of `unit`s becomes a count of `period`s, in 64-bit
  unsigned arithmetic, exactly or not at all.
 */
module DurationArithmetic {
  import opened NumberTheory

  const U64_MAX: nat := 0xFFFF_FFFF_FFFF_FFFF

  /** Unsigned multiplication wraps around. */
  function WrapMul(a: nat, b: nat): nat {
    a * b % 0x1_0000_0000_0000_0000
  }

  datatype Ratio = Ratio(num: nat, den: nat)

  predicate IsPositive(r: Ratio) {
    0 < r.num <= U64_MAX && 0 < r.den <= U64_MAX
  }

  /** The library keeps every `ratio` type in lowest terms. */
  predicate IsPeriod(r: Ratio) {
    IsPositive(r) && Coprime(r.num, r.den)
  }

  datatype Outcome = Stored(count: nat) | Failed | DivisionByZero

  function Quotient(n: nat, d: nat): nat
    requires d > 0
  {
    n / d
  }

  /** Numerator of `unit / period` after the cross reduction. */
  function FactorNum(unit: Ratio, period: Ratio): nat
    requires IsPositive(period)
  {
    Times(Quotient(unit.num, GcdOf(unit.num, period.num)), Quotient(period.den, GcdOf(unit.den, period.den)))
  }

  function FactorDen(unit: Ratio, period: Ratio): nat
    requires IsPositive(period)
  {
    Times(Quotient(unit.den, GcdOf(unit.den, period.den)), Quotient(period.num, GcdOf(unit.num, period.num)))
  }

  /** What is stored: the exact product, if the factor fits, divides evenly, and the result fits. */
  function Rescaled(r: nat, unit: Ratio, period: Ratio, repMax: nat): Outcome
    requires IsPositive(unit) && IsPositive(period)
  {
    var (p, q) := (FactorNum(unit, period), FactorDen(unit, period));
    FactorIsPositive(unit, period);
    if p <= U64_MAX && q <= U64_MAX && r % q == 0 && r / q * p <= repMax then Stored(r / q * p) else Failed
  }

  /** The two numbers split by their common divisors: `a == a' * g` and so on. */
  lemma Parts(unit: Ratio, period: Ratio)
    requires IsPositive(period)
    ensures var (g1, g2) := (GcdOf(unit.num, period.num), GcdOf(unit.den, period.den));
            && g1 > 0 && g2 > 0
            && unit.num == unit.num / g1 * g1 && period.num == period.num / g1 * g1 && period.num / g1 > 0
            && unit.den == unit.den / g2 * g2 && period.den == period.den / g2 * g2 && period.den / g2 > 0
            && Coprime(unit.num / g1, period.num / g1) && Coprime(unit.den / g2, period.den / g2)
  {
    ReducedCoprime(unit.num, period.num);
    ReducedCoprime(unit.den, period.den);
    hide GcdOf, Coprime;
  }

  lemma ProductPositive(a: nat, b: nat)
    requires a > 0 && b > 0
    ensures a * b > 0 && a * b >= a && a * b >= b
  {
    MultipleSize(a, b);
    MultipleSize(b, a);
  }

  lemma FactorIsPositive(unit: Ratio, period: Ratio)
    requires IsPositive(unit) && IsPositive(period)
    ensures FactorNum(unit, period) > 0 && FactorDen(unit, period) > 0
  {
    hide GcdOf;
    Parts(unit, period);
    ProductPositive(unit.num / GcdOf(unit.num, period.num), period.den / GcdOf(unit.den, period.den));
    ProductPositive(unit.den / GcdOf(unit.den, period.den), period.num / GcdOf(unit.num, period.num));
  }

  // ----- the code

  /** The overflow guard before a product decides exactly whether the product fits. */
  lemma GuardIsExact(a: nat, b: nat)
    requires b > 0
    ensures a > U64_MAX / b <==> a * b > U64_MAX
    ensures a * b <= U64_MAX ==> WrapMul(a, b) == a * b
  {
    var k := U64_MAX / b;
    assert U64_MAX == k * b + U64_MAX % b;
    assert a * b - k * b == (a - k) * b;
    MultipleSize(a - k, b);
  }

  /** Reducing the count by the denominator leaves one exactly when the denominator divides the count. */
  lemma ReductionIsExact(r: nat, q: nat)
    requires q > 0
    ensures var t := GcdOf(r, q);
            t > 0 && (q / t == 1 <==> r % q == 0) && (q / t == 1 ==> t == q)
  {
    ReducedCoprime(r, q);
    GcdOfMultiple(r, q);
    hide GcdOf, Coprime;
    var t := GcdOf(r, q);
    WholePart(r, q, r / t, q / t, t);
  }

  lemma WholePart(r: nat, q: nat, k: nat, j: nat, t: nat)
    requires t > 0 && q > 0 && r == k * t && q == j * t && (r % q == 0 ==> t == q)
    ensures j == 1 <==> r % q == 0
  {
    if j == 1 {
      QuotientOf(k, t);
    } else if t == q {
      SameMultiple(j, 1, t);
    }
  }

  lemma GcdOfMultiple(r: nat, q: nat)
    requires q > 0
    ensures r % q == 0 ==> GcdOf(r, q) == q
  {
    if r % q == 0 {
      assert GcdOf(r, q) == GcdOf(q, 0) == q;
    }
  }

  lemma GcdWithZero(x: nat)
    ensures GcdOf(0, x) == x && GcdOf(x, 0) == x
  {
    if x > 0 {
      assert GcdOf(0, x) == GcdOf(x, 0);
    }
  }

  /** First half of the reader's body: `unit / period` in 64 bits, if its terms fit. */
  method Factor(unit: Ratio, period: Ratio) returns (fits: bool, num: nat, den: nat)
    requires unit.num <= U64_MAX && unit.den <= U64_MAX && IsPeriod(period)
    ensures fits <==> FactorNum(unit, period) <= U64_MAX && FactorDen(unit, period) <= U64_MAX
    ensures fits ==> num == FactorNum(unit, period) && den == FactorDen(unit, period)
  {
    hide GcdOf, Coprime;
    num, den := unit.num, unit.den;
    Parts(unit, period);
    var g1 := Gcd(num, period.num);
    var g2 := Gcd(den, period.den);
    num := num / g1;
    den := den / g2;
    var n2 := period.num / g1;
    var d2 := period.den / g2;
    GuardIsExact(num, d2);
    GuardIsExact(den, n2);
    fits := !(num > U64_MAX / d2 || den > U64_MAX / n2);
    num := WrapMul(num, d2);
    den := WrapMul(den, n2);
  }

  /** Second half: reduce the count by the factor, multiply, and check the result's range. */
  method Multiply(r: nat, num: nat, den: nat, repMax: nat) returns (o: Outcome)
    requires r <= U64_MAX && num <= U64_MAX && den <= U64_MAX && repMax <= U64_MAX
    ensures den > 0 && num > 0 ==>
              o == if r % den == 0 && r / den * num <= repMax then Stored(r / den * num) else Failed
    ensures den == 0 ==> o == if r == 0 then DivisionByZero else Failed
    ensures den > 0 && num == 0 ==> o == if r % den == 0 then DivisionByZero else Failed
  {
    var count, d := r, den;
    var t := Gcd(count, d);
    GcdWithZero(r);
    if t == 0 {
      return DivisionByZero;
    }
    if den > 0 {
      ReductionIsExact(count, d);
    }
    hide GcdOf;
    count := count / t;
    d := d / t;
    if d != 1 {
      return Failed;
    }
    if num == 0 {
      return DivisionByZero;
    }
    GuardIsExact(count, num);
    if count > U64_MAX / num {
      return Failed;
    }
    var product := WrapMul(count, num);
    product := product / d;
    if repMax < product {
      return Failed;
    }
    return Stored(product);
  }

  /** The outcome for every unit; `[0/D]` and `[N/0]` end in a failure or, if the count divides out, a division by zero. */
  function Converted(r: nat, unit: Ratio, period: Ratio, repMax: nat): Outcome
    requires unit.num <= U64_MAX && unit.den <= U64_MAX && IsPositive(period)
  {
    if IsPositive(unit) then Rescaled(r, unit, period, repMax)
    else if unit.den == 0 then if r == 0 then DivisionByZero else Failed
    else
      GcdPositive(unit.den, period.den);
      if r % Quotient(unit.den, GcdOf(unit.den, period.den)) == 0 then DivisionByZero else Failed
  }

  lemma GcdPositive(x: nat, y: nat)
    requires x > 0
    ensures 0 < GcdOf(x, y) && Quotient(x, GcdOf(x, y)) > 0
  {
    GcdDivides(x, y);
    hide GcdOf;
    var g := GcdOf(x, y);
    var k: nat :| Times(k, g) == x;
    QuotientOf(k, g);
  }

  /** The body of the duration reader from the unit on, wrap-around and division by zero included. */
  method Rescale(r: nat, unit: Ratio, period: Ratio, repMax: nat) returns (o: Outcome)
    requires r <= U64_MAX && unit.num <= U64_MAX && unit.den <= U64_MAX && repMax <= U64_MAX && IsPeriod(period)
    ensures o == Converted(r, unit, period, repMax)
  {
    hide GcdOf, FactorNum, FactorDen, Quotient, Coprime;
    var fits, num, den := Factor(unit, period);
    ZeroUnits(unit, period);
    if IsPositive(unit) {
      FactorIsPositive(unit, period);
    }
    if !fits {
      return Failed;
    }
    o := Multiply(r, num, den, repMax);
  }

  lemma ZeroUnits(unit: Ratio, period: Ratio)
    requires unit.num <= U64_MAX && unit.den <= U64_MAX && IsPositive(period)
    ensures unit.den == 0 ==> FactorDen(unit, period) == 0 && FactorNum(unit, period) <= U64_MAX
    ensures unit.num == 0 ==>
              && FactorNum(unit, period) == 0 && GcdOf(unit.den, period.den) > 0
              && FactorDen(unit, period) == Quotient(unit.den, GcdOf(unit.den, period.den)) <= U64_MAX
    ensures unit.den > 0 ==> Quotient(unit.den, GcdOf(unit.den, period.den)) > 0
  {
    GcdWithZero(period.den);
    GcdWithZero(period.num);
    if unit.den > 0 {
      GcdPositive(unit.den, period.den);
    }
    hide GcdOf;
    Parts(unit, period);
    var (g1, g2) := (GcdOf(unit.num, period.num), GcdOf(unit.den, period.den));
    if unit.num == 0 {
      assert g1 == period.num && period.num / g1 == 1;
    }
    if unit.den == 0 {
      assert g2 == period.den && period.den / g2 == 1;
      assert FactorNum(unit, period) == unit.num / g1;
      MultipleSize(g1, unit.num / g1);
    }
  }

  // ----- what it means

  /** `c` periods last exactly as long as `r` units. */
  predicate SameLength(c: nat, period: Ratio, r: nat, unit: Ratio) {
    c * period.num * unit.den == r * unit.num * period.den
  }

  /** The same equation with the common factors gone. */
  lemma ReducedEquation(c: nat, period: Ratio, r: nat, unit: Ratio)
    requires IsPositive(unit) && IsPositive(period)
    ensures SameLength(c, period, r, unit) <==> c * FactorDen(unit, period) == r * FactorNum(unit, period)
  {
    hide GcdOf;
    Parts(unit, period);
    var (g1, g2) := (GcdOf(unit.num, period.num), GcdOf(unit.den, period.den));
    CancelBoth(c, unit.den / g2, period.num / g1, r, unit.num / g1, period.den / g2, g1, g2);
  }

  lemma CancelBoth(c: nat, d: nat, n2: nat, r: nat, n: nat, d2: nat, g1: nat, g2: nat)
    requires g1 > 0 && g2 > 0
    ensures c * (n2 * g1) * (d * g2) == r * (n * g1) * (d2 * g2) <==> c * (d * n2) == r * (n * d2)
  {
    var g := g1 * g2;
    ProductPositive(g1, g2);
    Regroup(c, n2, d, g1, g2);
    Regroup(r, n, d2, g1, g2);
    assert d * n2 == n2 * d;
    if (c * (n2 * d)) * g == (r * (n * d2)) * g {
      SameMultiple(c * (n2 * d), r * (n * d2), g);
    }
  }

  lemma Regroup(c: nat, a: nat, b: nat, g1: nat, g2: nat)
    ensures c * (a * g1) * (b * g2) == (c * (a * b)) * (g1 * g2)
  {
    assert (a * g1) * (b * g2) == (a * b) * (g1 * g2) by {
      assert (a * g1) * (b * g2) == a * (g1 * (b * g2));
      assert g1 * (b * g2) == b * (g1 * g2);
      assert a * (b * (g1 * g2)) == (a * b) * (g1 * g2);
    }
    assert c * (a * g1) * (b * g2) == c * ((a * g1) * (b * g2));
    assert c * ((a * b) * (g1 * g2)) == (c * (a * b)) * (g1 * g2);
  }

  /**
    For a positive count and any unit, written in lowest terms or not: the reader stores `c` exactly
    when `c` fits, is the exact conversion, and the reduced denominator divides the count. In
    particular no result that passes is ever lost to an overflow guard.
   */
  lemma StoresExactly(r: nat, unit: Ratio, period: Ratio, repMax: nat, c: nat)
    requires 0 < r <= U64_MAX && repMax <= U64_MAX && IsPositive(unit) && IsPositive(period)
    ensures Rescaled(r, unit, period, repMax) == Stored(c) <==>
            && c <= repMax && SameLength(c, period, r, unit)
            && FactorDen(unit, period) > 0 && r % FactorDen(unit, period) == 0
  {
    hide FactorNum, FactorDen, SameLength;
    var (p, q) := (FactorNum(unit, period), FactorDen(unit, period));
    FactorIsPositive(unit, period);
    ReducedEquation(c, period, r, unit);
    if r % q == 0 {
      MultipleOfFactor(r, p, q, c);
    }
  }

  lemma MultipleOfFactor(r: nat, p: nat, q: nat, c: nat)
    requires r > 0 && p > 0 && q > 0 && r % q == 0
    ensures c * q == r * p <==> c == r / q * p
    ensures r / q * p >= p && r >= q
  {
    var k := r / q;
    assert r == k * q;
    assert r * p == k * p * q;
    MultipleSize(k, q);
    MultipleSize(k, p);
    if c * q == r * p {
      SameMultiple(c, k * p, q);
    }
  }

  /** For units in lowest terms the divisibility condition is implied: every exact result is stored. */
  lemma StoresEveryExactResult(r: nat, unit: Ratio, period: Ratio, repMax: nat, c: nat)
    requires 0 < r <= U64_MAX && repMax <= U64_MAX && IsPeriod(unit) && IsPeriod(period)
    ensures Rescaled(r, unit, period, repMax) == Stored(c) <==> c <= repMax && SameLength(c, period, r, unit)
  {
    hide FactorNum, FactorDen, SameLength, GcdOf, Rescaled;
    StoresExactly(r, unit, period, repMax, c);
    FactorIsPositive(unit, period);
    if SameLength(c, period, r, unit) {
      ReducedEquation(c, period, r, unit);
      FactorIsReduced(unit, period);
      Euclid(FactorDen(unit, period), FactorNum(unit, period), r, c);
      var k: nat :| Times(k, FactorDen(unit, period)) == r;
      QuotientOf(k, FactorDen(unit, period));
    }
  }

  /** Cross-reducing two fractions in lowest terms leaves their quotient in lowest terms. */
  lemma FactorIsReduced(unit: Ratio, period: Ratio)
    requires IsPeriod(unit) && IsPeriod(period)
    ensures Coprime(FactorDen(unit, period), FactorNum(unit, period))
  {
    hide GcdOf, Coprime;
    Parts(unit, period);
    var (g1, g2) := (GcdOf(unit.num, period.num), GcdOf(unit.den, period.den));
    var (n, d, n2, d2) := (unit.num / g1, unit.den / g2, period.num / g1, period.den / g2);
    CoprimeFactors(n, d, g1, g2);
    CoprimeFactors(n2, d2, g1, g2);
    CoprimeSymmetric(n, d);
    CoprimeProduct(d, n, d2);
    CoprimeSymmetric(d, n * d2);
    CoprimeSymmetric(n, n2);
    CoprimeProduct(n2, n, d2);
    CoprimeSymmetric(n2, n * d2);
    CoprimeProduct(n * d2, d, n2);
    CoprimeSymmetric(n * d2, d * n2);
  }

  /** A zero count is stored unless the factor itself is too large for the guard. */
  lemma ZeroCount(unit: Ratio, period: Ratio, repMax: nat)
    requires IsPositive(unit) && IsPositive(period)
    ensures Rescaled(0, unit, period, repMax) == Stored(0) <==>
            FactorNum(unit, period) <= U64_MAX && FactorDen(unit, period) <= U64_MAX
  {
    hide FactorNum, FactorDen;
    FactorIsPositive(unit, period);
    assert 0 % FactorDen(unit, period) == 0 && 0 / FactorDen(unit, period) == 0;
    assert 0 * FactorNum(unit, period) == 0;
  }

  /** Two units of `[2/4]s` last one second, yet reading them is refused; written `[1/2]s` they are accepted. */
  lemma UnreducedUnitRefused()
    ensures SameLength(1, Ratio(1, 1), 2, Ratio(2, 4)) && Rescaled(2, Ratio(2, 4), Ratio(1, 1), U64_MAX) == Failed
    ensures Rescaled(2, Ratio(1, 2), Ratio(1, 1), U64_MAX) == Stored(1)
  {
    assert GcdOf(2, 1) == 1 && GcdOf(4, 1) == 1 && GcdOf(1, 1) == 1;
  }

  /** Reading into the period a count was printed in changes nothing. */
  lemma SamePeriod(r: nat, period: Ratio, repMax: nat)
    requires r <= repMax && IsPositive(period)
    ensures Rescaled(r, period, period, repMax) == Stored(r)
  {
    assert GcdOf(period.num, period.num) == GcdOf(period.num, 0);
    assert GcdOf(period.den, period.den) == GcdOf(period.den, 0);
    assert FactorNum(period, period) == 1 * 1 && FactorDen(period, period) == 1 * 1;
  }
}
