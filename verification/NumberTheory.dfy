/** Greatest common divisors, Bezout coefficients and coprime numbers. */
module NumberTheory {

  function GcdOf(x: nat, y: nat): (g: nat)
    ensures x > 0 || y > 0 ==> g > 0
    decreases y
  {
    if y == 0 then x else GcdOf(y, x % y)
  }

  /** The loop of `__gcd`. */
  method Gcd(x: nat, y: nat) returns (g: nat)
    ensures g == GcdOf(x, y)
  {
    var a, b := x, y;
    while b != 0
      invariant GcdOf(a, b) == GcdOf(x, y)
      decreases b
    {
      var oldA := a;
      a := b;
      b := oldA % b;
    }
    return a;
  }

  ghost predicate Divides(d: nat, n: nat) {
    exists k: nat :: Times(k, d) == n
  }

  function Times(k: nat, d: nat): nat {
    k * d
  }

  /** The coefficients also show that every common divisor divides the result. */
  lemma {:induction false} Bezout(x: nat, y: nat) returns (s: int, t: int)
    ensures s * x + t * y == GcdOf(x, y)
    decreases y
  {
    if y == 0 {
      return 1, 0;
    }
    var s', t' := Bezout(y, x % y);
    // s' * y + t' * (x - (x / y) * y)
    var q := x / y;
    assert x == q * y + x % y;
    calc {
      t' * x + (s' - t' * q) * y;
      t' * (q * y + x % y) + s' * y - t' * q * y;
      { assert t' * (q * y + x % y) == t' * (q * y) + t' * (x % y); assert t' * (q * y) == t' * q * y; }
      s' * y + t' * (x % y);
    }
    return t', s' - t' * q;
  }

  lemma {:induction false} GcdDivides(x: nat, y: nat)
    ensures Divides(GcdOf(x, y), x) && Divides(GcdOf(x, y), y)
    decreases y
  {
    var g := GcdOf(x, y);
    if y == 0 {
      assert Times(1, x) == x && Times(0, x) == 0;
    } else {
      GcdDivides(y, x % y);
      var a: nat :| Times(a, g) == y;
      var b: nat :| Times(b, g) == x % y;
      var q := x / y;
      assert x == q * y + x % y;
      assert q * (a * g) == (q * a) * g;
      assert Times(q * a + b, g) == x;
    }
  }

  /** A multiple is as far from zero as its factor allows. */
  lemma MultipleSize(k: int, d: nat)
    ensures k >= 1 ==> k * d >= d
    ensures k <= -1 ==> k * d + d <= 0
    ensures k == 0 ==> k * d == 0
  {
    if k >= 1 {
      assert k * d == (k - 1) * d + d;
    } else if k <= -1 {
      assert k * d == (k + 1) * d - d;
    }
  }

  lemma CommonFactor(s: int, a: int, t: int, b: int, d: int)
    ensures s * (a * d) + t * (b * d) == (s * a + t * b) * d
  {
    assert s * (a * d) == s * a * d && t * (b * d) == t * b * d;
  }

  /** Every common divisor divides the result: it is the greatest in the sense of divisibility. */
  lemma GcdIsGreatest(x: nat, y: nat, d: nat)
    requires d > 0 && Divides(d, x) && Divides(d, y)
    ensures Divides(d, GcdOf(x, y))
  {
    hide GcdOf;
    var s, t := Bezout(x, y);
    var a: nat :| Times(a, d) == x;
    var b: nat :| Times(b, d) == y;
    CommonFactor(s, a, t, b, d);
    MultipleSize(s * a + t * b, d);
    assert Times(s * a + t * b, d) == GcdOf(x, y);
  }

  predicate Coprime(x: nat, y: nat) {
    GcdOf(x, y) == 1
  }

  /** An integer combination that makes one leaves no common divisor but one. */
  lemma CoprimeByCombination(x: nat, y: nat, s: int, t: int)
    requires s * x + t * y == 1
    ensures Coprime(x, y)
  {
    GcdDivides(x, y);
    var g := GcdOf(x, y);
    hide GcdOf;
    var a: nat :| Times(a, g) == x;
    var b: nat :| Times(b, g) == y;
    CommonFactor(s, a, t, b, g);
    MultipleSize(s * a + t * b, g);
  }

  lemma CoprimeSymmetric(x: nat, y: nat)
    requires Coprime(x, y)
    ensures Coprime(y, x)
  {
    var s, t := Bezout(x, y);
    CoprimeByCombination(y, x, t, s);
  }

  lemma CoprimeProduct(x: nat, y: nat, z: nat)
    requires Coprime(x, y) && Coprime(x, z)
    ensures Coprime(x, y * z)
  {
    hide GcdOf;
    var s, t := Bezout(x, y);
    var s', t' := Bezout(x, z);
    var c := ProductOfCombinations(x, y, z, s, t, s', t');
    CoprimeByCombination(x, y * z, c, t * t');
  }

  lemma ProductOfCombinations(x: int, y: int, z: int, s: int, t: int, s': int, t': int) returns (c: int)
    ensures (s * x + t * y) * (s' * x + t' * z) == c * x + (t * t') * (y * z)
  {
    var (p, q) := (s * x + t * y, t * y);
    c := p * s' + s * (t' * z);
    assert p * (s' * x + t' * z) == p * s' * x + p * (t' * z) by {
      assert p * (s' * x) == p * s' * x;
    }
    assert p * (t' * z) == s * x * (t' * z) + q * (t' * z);
    assert s * x * (t' * z) == s * (t' * z) * x;
    assert q * (t' * z) == (t * t') * (y * z);
  }

  /** Euclid's lemma. */
  lemma Euclid(x: nat, y: nat, n: nat, k: nat)
    requires Coprime(x, y) && n * y == k * x
    ensures Divides(x, n)
  {
    hide GcdOf;
    var s, t := Bezout(x, y);
    EuclidCombination(x, y, n, k, s, t);
    var q := s * n + t * k;
    MultipleSize(q, x);
    assert Times(if q < 0 then 0 else q, x) == n;
  }

  lemma EuclidCombination(x: int, y: int, n: int, k: int, s: int, t: int)
    requires s * x + t * y == 1 && n * y == k * x
    ensures (s * n + t * k) * x == n
  {
    assert n * (s * x + t * y) == n * (s * x) + n * (t * y);
    assert n * (s * x) == s * n * x;
    assert n * (t * y) == t * (n * y) == t * (k * x) == t * k * x;
  }

  /** Dividing both numbers by their greatest common divisor leaves coprime numbers. */
  lemma ReducedCoprime(x: nat, y: nat)
    requires x > 0 || y > 0
    ensures var g := GcdOf(x, y);
            g > 0 && x == x / g * g && y == y / g * g && Coprime(x / g, y / g)
  {
    GcdDivides(x, y);
    var g := GcdOf(x, y);
    hide GcdOf;
    var a: nat :| Times(a, g) == x;
    var b: nat :| Times(b, g) == y;
    QuotientOf(a, g);
    QuotientOf(b, g);
    var s, t := Bezout(x, y);
    CommonFactor(s, a, t, b, g);
    assert (s * a + t * b) * g == 1 * g;
    SameMultiple(s * a + t * b, 1, g);
    CoprimeByCombination(a, b, s, t);
  }

  lemma QuotientOf(k: nat, d: nat)
    requires d > 0
    ensures k * d / d == k && k * d % d == 0
  {
    var n := k * d;
    assert n == n / d * d + n % d;
    assert (k - n / d) * d == n % d;
    MultipleSize(k - n / d, d);
  }

  lemma SameMultiple(a: int, b: int, d: nat)
    requires d > 0 && a * d == b * d
    ensures a == b
  {
    assert (a - b) * d == 0;
    MultipleSize(a - b, d);
  }

  /** Factors of coprime numbers are coprime. */
  lemma CoprimeFactors(x: nat, y: nat, g: nat, h: nat)
    requires Coprime(x * g, y * h)
    ensures Coprime(x, y)
  {
    var s, t := Bezout(x * g, y * h);
    assert (s * g) * x + (t * h) * y == 1 by {
      assert s * (x * g) == s * g * x && t * (y * h) == t * h * y;
    }
    CoprimeByCombination(x, y, s * g, t * h);
  }
}
