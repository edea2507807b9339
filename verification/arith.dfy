/**
 Integer arithmetic the search relies on: fifth powers (Python's `a**5`) and
 the greatest common divisor of four bases (Python's `math.gcd(a, b, c, d)`).
 */
module Arith {

  /** `x**5`, exact (Python integers do not overflow). */
  function Pow5(x: int): int {
    x * x * x * x * x
  }

  lemma MulMonotone(a: int, b: int, c: int, d: int)
    requires 0 <= a <= b && 0 <= c <= d
    ensures a * c <= b * d
  {
    assert a * c <= b * c;
    assert b * c <= b * d;
  }

  lemma MulStrictMonotone(a: int, b: int, c: int, d: int)
    requires 0 <= a < b && 0 < c <= d
    ensures a * c < b * d
  {
    assert a * c < b * c;
    assert b * c <= b * d;
  }

  /** Fifth powers of non-negative integers grow strictly with the base. */
  lemma Pow5StrictMonotone(x: int, y: int)
    requires 0 <= x < y
    ensures 0 <= Pow5(x) < Pow5(y)
  {
    MulMonotone(x, x, x, y);
    MulStrictMonotone(x, y, y, y);
    MulMonotone(x * x, x * x, x, y);
    MulStrictMonotone(x * x, y * y, y, y);
    MulMonotone(x * x * x, x * x * x, x, y);
    MulStrictMonotone(x * x * x, y * y * y, y, y);
    MulMonotone(x * x * x * x, x * x * x * x, x, y);
    MulStrictMonotone(x * x * x * x, y * y * y * y, y, y);
  }

  lemma Pow5Monotone(x: int, y: int)
    requires 0 <= x <= y
    ensures 0 <= Pow5(x) <= Pow5(y)
  {
    if x < y {
      Pow5StrictMonotone(x, y);
    } else if 0 < x {
      Pow5StrictMonotone(0, x);
    }
  }

  /** On non-negative bases the fifth power is injective. */
  lemma Pow5Injective(x: int, y: int)
    requires 0 <= x && 0 <= y
    requires Pow5(x) == Pow5(y)
    ensures x == y
  {
    if x < y {
      Pow5StrictMonotone(x, y);
    } else if y < x {
      Pow5StrictMonotone(y, x);
    }
  }

  /** A number strictly between two consecutive fifth powers is not one. */
  lemma NotAFifthPower(r: int, k: int)
    requires 0 <= k && Pow5(k) < r < Pow5(k + 1)
    ensures forall x :: 0 <= x ==> Pow5(x) != r
  {
    forall x | 0 <= x
      ensures Pow5(x) != r
    {
      if x <= k {
        Pow5Monotone(x, k);
      } else {
        Pow5Monotone(k + 1, x);
      }
    }
  }

  function Abs(x: int): nat {
    if x < 0 then -x else x
  }

  /** `k` is a positive divisor of `x`. */
  predicate Divides(k: int, x: int) {
    k >= 1 && Abs(x) % k == 0
  }

  /** Euclid's algorithm on non-negative integers. */
  function Euclid(x: nat, y: nat): nat
    decreases y
  {
    if y == 0 then x else Euclid(y, x % y)
  }

  /** `math.gcd(x, y)`: the gcd of the absolute values, 0 only for gcd(0, 0). */
  function Gcd(x: int, y: int): nat {
    Euclid(Abs(x), Abs(y))
  }

  /** `math.gcd(a, b, c, d)`, folded left to right as the library does. */
  function Gcd4(a: int, b: int, c: int, d: int): nat {
    Gcd(Gcd(Gcd(a, b), c), d)
  }

  /** Euclidean division: `x` is `k` times its quotient plus its remainder. */
  lemma Quotient(x: int, k: int)
    requires k >= 1
    ensures x == k * (x / k) + x % k && 0 <= x % k < k
    ensures x >= 0 ==> x / k >= 0
  {
  }

  /** A multiple of `k` is `k` times its quotient. */
  lemma ExactQuotient(x: int, k: int)
    requires k >= 1 && x % k == 0
    ensures x == k * (x / k)
  {
    Quotient(x, k);
  }

  /** A number in `[0, k)` is its own remainder modulo `k`. */
  lemma SmallRemainder(r: int, k: int)
    requires 0 <= r < k
    ensures r % k == r
  {
  }

  /** Adding a multiple of `k` leaves the remainder modulo `k` unchanged. */
  lemma ModShift(k: int, r: int, q: int)
    requires k >= 1
    ensures (k * q + r) % k == r % k
  {
    var m := k * q + r;
    var z := q + r / k - m / k;
    assert m % k - r % k == k * z;
    if z >= 1 {
      MulMonotone(1, z, k, k);
    } else if z <= -1 {
      MulMonotone(1, -z, k, k);
    }
  }

  /** Common divisors of `x` and `y` are those of `y` and `x % y`. */
  lemma DividesRemainder(k: int, x: nat, y: nat)
    requires y > 0 && k >= 1 && Divides(k, y)
    ensures Divides(k, x) <==> Divides(k, x % y)
  {
    var t := y / k;
    assert y == k * t;
    assert x == k * ((x / y) * t) + x % y by {
      assert x == (x / y) * y + x % y;
      assert (x / y) * y == k * ((x / y) * t);
    }
    ModShift(k, x % y, (x / y) * t);
  }

  lemma {:induction false} EuclidDivisors(k: int, x: nat, y: nat)
    requires k >= 1
    ensures Divides(k, x) && Divides(k, y) <==> Divides(k, Euclid(x, y))
    decreases y
  {
    if y > 0 {
      EuclidDivisors(k, y, x % y);
      if Divides(k, y) {
        DividesRemainder(k, x, y);
      }
    }
  }

  /**
   The common divisors of four numbers are exactly the divisors of their gcd:
   `Gcd4` is the greatest common divisor, not just a common one.
   */
  lemma Gcd4Divisors(k: int, a: int, b: int, c: int, d: int)
    requires k >= 1
    ensures Divides(k, a) && Divides(k, b) && Divides(k, c) && Divides(k, d)
            <==> Divides(k, Gcd4(a, b, c, d))
  {
    EuclidDivisors(k, Abs(a), Abs(b));
    EuclidDivisors(k, Gcd(a, b), Abs(c));
    EuclidDivisors(k, Gcd(Gcd(a, b), c), Abs(d));
  }

  /** No integer above 1 divides all four numbers. */
  ghost predicate Coprime4(a: int, b: int, c: int, d: int) {
    forall k :: k >= 2 ==> !(Divides(k, a) && Divides(k, b) && Divides(k, c) && Divides(k, d))
  }

  /** The primitivity filter `gcd(a, b, c, d) == 1` means exactly "no common factor". */
  lemma Gcd4IsOneIffCoprime(a: int, b: int, c: int, d: int)
    ensures Gcd4(a, b, c, d) == 1 <==> Coprime4(a, b, c, d)
  {
    var g := Gcd4(a, b, c, d);
    if g == 1 {
      forall k | k >= 2
        ensures !(Divides(k, a) && Divides(k, b) && Divides(k, c) && Divides(k, d))
      {
        Gcd4Divisors(k, a, b, c, d);
      }
    } else {
      var k := if g == 0 then 2 else g;
      assert Divides(k, g);
      Gcd4Divisors(k, a, b, c, d);
    }
  }
}
