/**
 Rounding to IEEE 754-2019 binary64, the number type of JavaScript, in the default direction
 roundTiesToEven (section 4.3.1). Values are modelled as reals. The exponent is unbounded:
 nothing the program computes comes near underflow, and every result too large to be finite
 fails the same safe-integer check as a large finite one.
 */
module Binary64 {

  const TWO52: real := 4503599627370496.0
  const TWO53: real := 9007199254740992.0

  /** The nearest integer, the even one on a tie. */
  function RoundEven(x: real): (n: int)
    ensures n as real - 0.5 <= x <= n as real + 0.5
  {
    var f := x.Floor;
    var rest := x - f as real;
    if rest < 0.5 || (rest == 0.5 && f % 2 == 0) then f else f + 1
  }

  /**
   Rounding of a positive real: scale by two until the significand has 53 bits before the point,
   round it to an integer there, and scale back.
   */
  function FlPos(x: real): real
    requires x > 0.0
    decreases if x < TWO52 then 1 else 0, if x < TWO52 then (TWO52 / x).Floor else x.Floor
  {
    if x >= TWO53 then
      2.0 * FlPos(x / 2.0)
    else if x < TWO52 then
      HalvesFloor(TWO52 / x, x);
      FlPos(2.0 * x) / 2.0
    else
      RoundEven(x) as real
  }

  lemma HalvesFloor(y: real, x: real)
    requires x > 0.0 && y == TWO52 / x && y > 1.0
    ensures TWO52 / (2.0 * x) == y / 2.0
    ensures 0 <= (y / 2.0).Floor < y.Floor
  {
    assert x * y == TWO52;
    assert (2.0 * x) * (y / 2.0) == x * y;
  }

  /** Rounding of any real; the sign is carried over. */
  function Fl(x: real): real
  {
    if x == 0.0 then 0.0 else if x > 0.0 then FlPos(x) else -FlPos(-x)
  }

  // ----- What rounding leaves alone and what it cannot cross -----

  lemma {:induction false} IntegersBelowTwo53(x: real)
    requires 0.0 < x < TWO53 && x == x.Floor as real
    ensures FlPos(x) == x
    decreases (TWO53 / x).Floor
  {
    if x < TWO52 {
      DoublingDecreases(x);
      assert 2.0 * x == (2 * x.Floor) as real;
      IntegersBelowTwo53(2.0 * x);
    } else {
      RoundEvenDoesNotCross(x, x.Floor);
    }
  }

  lemma DoublingDecreases(x: real)
    requires 0.0 < x < TWO53
    ensures 0 <= (TWO53 / (2.0 * x)).Floor < (TWO53 / x).Floor
  {
    var y := TWO53 / x;
    assert x * y == TWO53;
    assert y > 1.0;
    assert (2.0 * x) * (y / 2.0) == TWO53;
  }

  /** Every integer of magnitude at most 2^53 is a double. */
  lemma IntegersExact(n: int)
    requires -9007199254740992 <= n <= 9007199254740992
    ensures Fl(n as real) == n as real
  {
    var x := if n < 0 then -n as real else n as real;
    if x == TWO53 {
      IntegersBelowTwo53(TWO52);
    } else if x > 0.0 {
      IntegersBelowTwo53(x);
    }
  }

  /** Every even integer up to 2^54 is a double. */
  lemma EvenIntegersExact(n: int)
    requires 0 <= n <= 9007199254740992
    ensures Fl((2 * n) as real) == (2 * n) as real
  {
    IntegersExact(n);
    if 2 * n < 9007199254740992 {
      IntegersExact(2 * n);
    }
  }

  /** Rounding never carries a value from 2^53 or above to below 2^53. */
  lemma {:induction false} LargeStaysLarge(x: real)
    requires x >= TWO53
    ensures FlPos(x) >= TWO53
    ensures FlPos(x) == FlPos(x).Floor as real
    decreases x.Floor
  {
    if x / 2.0 >= TWO53 {
      LargeStaysLarge(x / 2.0);
    }
    assert FlPos(x) == (2 * FlPos(x / 2.0).Floor) as real;
  }

  /** Rounding does not cross an integer, from either side. */
  lemma {:induction false} DoesNotCross(x: real, n: int)
    requires 0.0 < x < TWO53
    ensures n as real <= x ==> n as real <= FlPos(x)
    ensures x <= n as real ==> FlPos(x) <= n as real
    decreases (TWO53 / x).Floor
  {
    if x < TWO52 {
      DoublingDecreases(x);
      var y := 2.0 * x;
      assert (2 * n) as real == 2.0 * n as real;
      DoesNotCross(y, 2 * n);
      assert FlPos(x) == FlPos(y) / 2.0;
    } else {
      RoundEvenDoesNotCross(x, n);
      assert FlPos(x) == RoundEven(x) as real;
    }
  }

  lemma RoundEvenDoesNotCross(x: real, n: int)
    ensures n as real <= x ==> n <= RoundEven(x)
    ensures x <= n as real ==> RoundEven(x) <= n
  {}

  /** Powers of two with any integer exponent. */
  function Pow2(e: int): (p: real)
    ensures p > 0.0
    decreases if e < 0 then -e else e
  {
    if e == 0 then 1.0 else if e > 0 then 2.0 * Pow2(e - 1) else Pow2(e + 1) / 2.0
  }

  lemma Pow2Step(e: int)
    ensures Pow2(e + 1) == 2.0 * Pow2(e)
  {}

  /** Half-ulp bound: below 2^53 / 2^k the error is at most 1 / 2^(k+1). */
  lemma {:induction false} HalfUlp(x: real, k: int)
    requires k >= 0
    requires 0.0 < x < TWO53 * Pow2(-k)
    ensures -Pow2(-k - 1) <= FlPos(x) - x <= Pow2(-k - 1)
    decreases k, (TWO53 / x).Floor
  {
    Pow2AtMostOne(k);
    Pow2Step(-k - 1);
    if x < TWO52 {
      if k == 0 {
        DoublingDecreases(x);
        HalfUlp(2.0 * x, 0);
      } else {
        Pow2Step(-k);
        HalfUlp(2.0 * x, k - 1);
      }
    } else if k > 0 {
      Pow2AtMostOne(k - 1);
      Pow2Step(-k);
      assert false;
    }
  }

  lemma {:induction false} Pow2AtMostOne(k: int)
    requires k >= 0
    ensures Pow2(-k) <= 1.0
  {
    if k > 0 {
      Pow2AtMostOne(k - 1);
    }
  }

  lemma SmallPowers()
    ensures Pow2(-9) == 1.0 / 512.0 && Pow2(-10) == 1.0 / 1024.0
    ensures Pow2(-11) == 1.0 / 2048.0 && Pow2(-12) == 1.0 / 4096.0
  {
    assert Pow2(-1) == 0.5 && Pow2(-2) == 0.25 && Pow2(-3) == 0.125 && Pow2(-4) == 0.0625;
    assert Pow2(-5) == 1.0 / 32.0 && Pow2(-6) == 1.0 / 64.0 && Pow2(-7) == 1.0 / 128.0 && Pow2(-8) == 1.0 / 256.0;
  }

  // ----- Agreement with the standard's definition -----

  /** The finite binary64 values, exponent range apart. */
  ghost predicate Representable(z: real)
  {
    exists m: int, e: int :: Scaled(z, m, e)
  }

  ghost predicate Scaled(z: real, m: int, e: int)
  {
    Significand(m) && z == m as real * Pow2(e)
  }

  predicate Significand(m: int)
  {
    -9007199254740992 < m < 9007199254740992
  }

  /** y is a binary64 value nearest to x. */
  ghost predicate Nearest(x: real, y: real)
  {
    Representable(y) && forall z: real :: Representable(z) ==> Distance(x, y) <= Distance(x, z)
  }

  function Distance(x: real, y: real): real
  {
    if x < y then y - x else x - y
  }

  lemma ScaleRepresentable(z: real)
    ensures Representable(z) <==> Representable(2.0 * z)
  {
    if Representable(z) {
      var m: int, e: int :| Scaled(z, m, e);
      ScaledStep(z, m, e);
    }
    if Representable(2.0 * z) {
      var m: int, e: int :| Scaled(2.0 * z, m, e);
      ScaledStep(z, m, e - 1);
    }
  }

  lemma ScaledStep(z: real, m: int, e: int)
    ensures Scaled(z, m, e) <==> Scaled(2.0 * z, m, e + 1)
  {
    DoubleProduct(z, m as real, e);
  }

  lemma DoubleProduct(z: real, a: real, e: int)
    ensures z == a * Pow2(e) <==> 2.0 * z == a * Pow2(e + 1)
  {
    Pow2Step(e);
    var p := Pow2(e);
    assert a * (2.0 * p) == 2.0 * (a * p);
  }

  lemma ScaleNearest(x: real, y: real)
    ensures Nearest(x, y) <==> Nearest(2.0 * x, 2.0 * y)
  {
    ScaleRepresentable(y);
    if Nearest(x, y) {
      forall z: real | Representable(z) ensures Distance(2.0 * x, 2.0 * y) <= Distance(2.0 * x, z) {
        ScaleRepresentable(z / 2.0);
        assert Distance(x, y) <= Distance(x, z / 2.0);
      }
    }
    if Nearest(2.0 * x, 2.0 * y) {
      forall z: real | Representable(z) ensures Distance(x, y) <= Distance(x, z) {
        ScaleRepresentable(z);
        assert Distance(2.0 * x, 2.0 * y) <= Distance(2.0 * x, 2.0 * z);
      }
    }
  }

  /** A double that is not an integer is smaller than 2^52 in magnitude. */
  lemma FractionsAreSmall(z: real)
    requires Representable(z) && z >= TWO52
    ensures z == z.Floor as real
  {
    var m: int, e: int :| Scaled(z, m, e);
    if e >= 0 {
      Pow2Whole(e);
      assert z == (m * Pow2(e).Floor) as real;
    } else {
      NegativeExponentBelow(m, e);
    }
  }

  lemma NegativeExponentBelow(m: int, e: int)
    requires Significand(m) && e < 0
    ensures m as real * Pow2(e) < TWO52
  {
    Pow2Step(e);
    Pow2AtMostOne(-e - 1);
    ProductBelow(m as real, Pow2(e));
  }

  lemma ProductBelow(a: real, p: real)
    requires a < TWO53 && 0.0 < p <= 0.5
    ensures a * p < TWO52
  {
    if a > 0.0 {
      assert a * p <= a * 0.5;
    } else {
      assert a * p <= 0.0;
    }
  }

  lemma {:induction false} Pow2Whole(e: nat)
    ensures Pow2(e) == Pow2(e).Floor as real
  {
    if e > 0 {
      Pow2Whole(e - 1);
      assert Pow2(e) == (2 * Pow2(e - 1).Floor) as real;
    }
  }

  lemma RoundEvenRepresentable(x: real)
    requires TWO52 <= x < TWO53
    ensures Representable(RoundEven(x) as real)
  {
    var n := RoundEven(x);
    if n < 9007199254740992 {
      assert Scaled(n as real, n, 0);
    } else {
      assert Pow2(1) == 2.0;
      assert Scaled(n as real, 4503599627370496, 1);
    }
  }

  /** FlPos computes the correctly rounded result: no double lies nearer to x. */
  lemma {:induction false} FlIsNearest(x: real)
    requires x > 0.0
    ensures Nearest(x, FlPos(x))
    decreases if x < TWO52 then 1 else 0, if x < TWO52 then (TWO52 / x).Floor else x.Floor
  {
    if x >= TWO53 {
      FlIsNearest(x / 2.0);
      ScaleNearest(x / 2.0, FlPos(x / 2.0));
    } else if x < TWO52 {
      HalvesFloor(TWO52 / x, x);
      FlIsNearest(2.0 * x);
      ScaleNearest(x, FlPos(x));
    } else {
      RoundEvenRepresentable(x);
      var y := RoundEven(x) as real;
      forall z: real | Representable(z) ensures Distance(x, y) <= Distance(x, z) {
        if z >= TWO52 {
          FractionsAreSmall(z);
          NearestInteger(x, z.Floor);
        } else {
          NearestInteger(x, 4503599627370496);
        }
      }
    }
  }

  lemma NearestInteger(x: real, n: int)
    ensures Distance(x, RoundEven(x) as real) <= Distance(x, n as real)
  {
    var r := RoundEven(x);
    if n < r {
      assert n as real <= r as real - 1.0;
    } else if n > r {
      assert n as real >= r as real + 1.0;
    }
  }

  /** y is a double whose normalised significand is even. */
  ghost predicate EvenSignificand(y: real)
  {
    exists m: int, e: int :: EvenScaled(y, m, e)
  }

  ghost predicate EvenScaled(y: real, m: int, e: int)
  {
    Scaled(y, m, e) && 4503599627370496 <= m && m % 2 == 0
  }

  lemma ScaleEvenSignificand(y: real)
    ensures EvenSignificand(y) <==> EvenSignificand(2.0 * y)
  {
    if EvenSignificand(y) {
      var m: int, e: int :| EvenScaled(y, m, e);
      ScaledStep(y, m, e);
      assert EvenScaled(2.0 * y, m, e + 1);
    }
    if EvenSignificand(2.0 * y) {
      var m: int, e: int :| EvenScaled(2.0 * y, m, e);
      ScaledStep(y, m, e - 1);
      assert EvenScaled(y, m, e - 1);
    }
  }

  /** z is a double other than FlPos(x) at the same distance from x. */
  ghost predicate Tied(x: real, z: real)
    requires x > 0.0
  {
    Representable(z) && z != FlPos(x) && Distance(x, z) == Distance(x, FlPos(x))
  }

  /** When two doubles are equally near, FlPos takes the one with the even significand. */
  lemma {:induction false} TiesToEven(x: real, z: real)
    requires x > 0.0 && Tied(x, z)
    ensures EvenSignificand(FlPos(x))
    decreases if x < TWO52 then 1 else 0, if x < TWO52 then (TWO52 / x).Floor else x.Floor
  {
    if x >= TWO53 {
      TiedDoubles(x / 2.0, z / 2.0);
      TiesToEven(x / 2.0, z / 2.0);
    } else if x < TWO52 {
      HalvesFloor(TWO52 / x, x);
      TiedDoubles(x, z);
      TiesToEven(2.0 * x, 2.0 * z);
    } else {
      TieInTopBinade(x, z);
    }
  }

  lemma FlDoubles(x: real)
    requires x > 0.0
    ensures FlPos(2.0 * x) == 2.0 * FlPos(x)
  {
    if x >= TWO52 {
      assert 2.0 * x / 2.0 == x;
    }
  }

  lemma TiedDoubles(x: real, z: real)
    requires x > 0.0
    ensures Tied(x, z) <==> Tied(2.0 * x, 2.0 * z)
    ensures EvenSignificand(FlPos(x)) <==> EvenSignificand(FlPos(2.0 * x))
  {
    FlDoubles(x);
    ScaleRepresentable(z);
    ScaleDistance(x, z);
    ScaleDistance(x, FlPos(x));
    ScaleEvenSignificand(FlPos(x));
  }

  lemma ScaleDistance(a: real, b: real)
    ensures Distance(2.0 * a, 2.0 * b) == 2.0 * Distance(a, b)
  {}

  lemma TieInTopBinade(x: real, z: real)
    requires TWO52 <= x < TWO53 && Representable(z)
    requires z != RoundEven(x) as real && Distance(x, z) == Distance(x, RoundEven(x) as real)
    ensures EvenSignificand(RoundEven(x) as real)
  {
    NearestInteger(x, 4503599627370496);
    FractionsAreSmall(z);
    var n := RoundEven(x);
    TiedIntegers(x, z.Floor);
    if n < 9007199254740992 {
      assert EvenScaled(n as real, n, 0);
    } else {
      assert Pow2(1) == 2.0;
      assert EvenScaled(n as real, 4503599627370496, 1);
    }
  }

  lemma TiedIntegers(x: real, n: int)
    requires n != RoundEven(x) && Distance(x, n as real) == Distance(x, RoundEven(x) as real)
    ensures RoundEven(x) % 2 == 0
  {
    var r := RoundEven(x);
    if n < r {
      assert n as real <= r as real - 1.0;
    } else {
      assert n as real >= r as real + 1.0;
    }
  }
}
