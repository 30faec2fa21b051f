/** The Money value object: whole minor units held in a double that must be a safe integer. */
module Money {
  import opened Wrappers
  import opened Binary64

  const MAX_SAFE_INTEGER: int := 9007199254740991
  const SECONDS_PER_HOUR: int := 3600

  datatype MoneyError = NotAnInteger | UnsafeInteger | NotDecimal | InvalidRate | InvalidDuration | ChargeOverflow

  predicate Safe(n: int) {
    -MAX_SAFE_INTEGER <= n <= MAX_SAFE_INTEGER
  }

  predicate IsInteger(value: real) {
    value == value.Floor as real
  }

  /** Money.fromMinor: the only way to build an amount. */
  function FromMinor(value: real): Result<int, MoneyError> {
    if !IsInteger(value) then Err(NotAnInteger)
    else if !Safe(value.Floor) then Err(UnsafeInteger)
    else Ok(value.Floor)
  }

  /** An amount is accepted exactly when it is a safe integer, and is then that integer. */
  lemma FromMinorIff(value: real, v: int)
    ensures FromMinor(value) == Ok(v) <==> value == v as real && -9007199254740991 <= v <= 9007199254740991
  {}

  /** FromMinor for an amount already known to be whole. */
  function Minor(value: int): Result<int, MoneyError> {
    if Safe(value) then Ok(value) else Err(UnsafeInteger)
  }

  /** Money.add and Money.subtract: one rounded machine operation, then fromMinor. */
  function Add(a: int, b: int): Result<int, MoneyError> {
    FromMinor(Fl((a + b) as real))
  }

  function Subtract(a: int, b: int): Result<int, MoneyError> {
    FromMinor(Fl((a - b) as real))
  }

  /** Money.forDuration, every arithmetic operator rounded to a double. */
  function ForDuration(rate: real, seconds: real): Result<int, MoneyError> {
    if !IsInteger(rate) || rate < 0.0 then Err(InvalidRate)
    else if !IsInteger(seconds) || seconds < 0.0 then Err(InvalidDuration)
    else
      var numerator := Fl(rate * seconds);
      if !IsInteger(numerator) || !Safe(numerator.Floor) then Err(ChargeOverflow)
      else FromMinor(FlooredQuotient(numerator))
  }

  /** Math.floor((numerator * 2 + denominator) / (denominator * 2)) in doubles. */
  function FlooredQuotient(numerator: real): real {
    Fl(Fl(Fl(numerator * 2.0) + 3600.0) / 7200.0).Floor as real
  }

  /** Half-up rounding of n / 3600 in exact integer arithmetic: what the documentation promises. */
  function HalfUp(n: nat): nat {
    (n + 1800) / 3600
  }

  /** HalfUp is the integer nearest to n / 3600, the upper one on a tie. */
  lemma HalfUpIsNearest(n: nat, v: int)
    ensures v == HalfUp(n) <==> -1800 <= n - SECONDS_PER_HOUR * v < 1800
  {}

  /** The one numerator at which the double computation departs from half-up rounding: 2^53 - 393. */
  const MISROUNDED: int := 9007199254740599

  /** What the code charges, in integers: half-up, except one too much at a single numerator. */
  function ChargeOf(rate: int, seconds: int): Result<nat, MoneyError> {
    if rate < 0 then Err(InvalidRate)
    else if seconds < 0 then Err(InvalidDuration)
    else
      var n := Numerator(rate, seconds);
      if !Safe(n) then Err(ChargeOverflow) else Ok(Charged(n))
  }

  function Numerator(rate: nat, seconds: nat): nat {
    rate * seconds
  }

  function Charged(n: nat): nat {
    if n == MISROUNDED then HalfUp(n) + 1 else HalfUp(n)
  }

  // ----- The double computation -----

  /** Dividing by 7200 and rounding does not disturb the floor: 1/3600 beats the half-ulp 1/4096. */
  lemma QuotientFloor(m: int)
    requires 0 < m <= 9007199254742792
    ensures Fl(m as real / 3600.0).Floor == m / 3600
  {
    var x := m as real / 3600.0;
    var q := m / 3600;
    assert m == 3600 * q + m % 3600;
    assert q as real <= x <= q as real + 1.0 - 1.0 / 3600.0;
    SmallPowers();
    HalfUlp(x, 11);
    DoesNotCross(x, q);
  }

  lemma FloorOfRounded(n: int, m: int)
    requires 0 <= n <= MAX_SAFE_INTEGER && 0 < m <= 9007199254742792
    requires Fl((2 * n + 3600) as real) == (2 * m) as real
    ensures FlooredQuotient(n as real) == (m / 3600) as real
  {
    EvenIntegersExact(n);
    assert n as real * 2.0 == (2 * n) as real;
    assert (2 * n) as real + 3600.0 == (2 * n + 3600) as real;
    assert (2 * m) as real / 7200.0 == m as real / 3600.0;
    QuotientFloor(m);
  }

  lemma EvenStep(n: int)
    requires 0 <= n && 2 * n + 3600 <= 18014398509481984
    ensures FlooredQuotient(n as real) == HalfUp(n) as real
  {
    EvenIntegersExact(n + 1800);
    FloorOfRounded(n, n + 1800);
  }

  /** Between 2^54 and 2^55 doubles are four apart. */
  lemma FoursAbove54(t: int)
    requires 18014398509481984 <= t < 36028797018963968
    ensures Fl(t as real) == (4 * RoundEven(t as real / 4.0)) as real
  {
    assert t as real / 2.0 / 2.0 == t as real / 4.0;
    assert FlPos(t as real) == 2.0 * FlPos(t as real / 2.0);
    assert FlPos(t as real / 2.0) == 2.0 * FlPos(t as real / 2.0 / 2.0);
  }

  lemma QuarterRounding(g: int, k: int)
    requires k == 0 || k == 2 || k == 4 || k == 6
    ensures 4 * RoundEven((8 * g + k) as real / 4.0) == 8 * g + (if k == 2 then 0 else if k == 6 then 8 else k)
  {
    var x := (8 * g + k) as real / 4.0;
    var f := 2 * g + k / 4;
    if k % 4 == 0 {
      assert x == f as real;
    } else {
      assert x == f as real + 0.5;
    }
    assert x.Floor == f;
  }

  /** An even sum just above 2^54 is rounded to a multiple of four, to a multiple of eight on a tie. */
  function ToFours(g: int, k: int): int {
    4 * g + (if k == 2 then 0 else if k == 6 then 4 else k / 2)
  }

  lemma RoundedToFours(g: int, k: int)
    requires k == 0 || k == 2 || k == 4 || k == 6
    requires 18014398509481984 <= 8 * g + k < 36028797018963968
    ensures Fl((8 * g + k) as real) == (2 * ToFours(g, k)) as real
  {
    FoursAbove54(8 * g + k);
    QuarterRounding(g, k);
  }

  /** The rounded sum crosses a multiple of 7200 at one n only. */
  lemma LastQuotient(n: int, g: int, k: int)
    requires 0 <= n <= MAX_SAFE_INTEGER && 2 * n + 3600 > 18014398509481984
    requires 2 * n + 3600 == 8 * g + k && (k == 0 || k == 2 || k == 4 || k == 6)
    ensures ToFours(g, k) / 3600 == Charged(n)
  {}

  lemma LastStep(n: int, g: int, k: int)
    requires 0 <= n <= MAX_SAFE_INTEGER && 2 * n + 3600 > 18014398509481984
    requires 2 * n + 3600 == 8 * g + k && (k == 0 || k == 2 || k == 4 || k == 6)
    ensures FlooredQuotient(n as real) == Charged(n) as real
  {
    RoundedToFours(g, k);
    FloorOfRounded(n, ToFours(g, k));
    LastQuotient(n, g, k);
  }

  lemma QuotientIsCharged(n: int)
    requires 0 <= n <= MAX_SAFE_INTEGER
    ensures FlooredQuotient(n as real) == Charged(n) as real
    ensures FromMinor(FlooredQuotient(n as real)) == Ok(Charged(n))
  {
    if 2 * n + 3600 <= 18014398509481984 {
      EvenStep(n);
    } else {
      LastStep(n, (2 * n + 3600) / 8, (2 * n + 3600) % 8);
    }
  }

  lemma ProductCheck(n: int)
    requires n >= 0
    ensures var p := Fl(n as real); IsInteger(p) && (Safe(p.Floor) <==> Safe(n)) && (Safe(n) ==> p == n as real)
  {
    if Safe(n) {
      IntegersExact(n);
    } else {
      LargeStaysLarge(n as real);
    }
  }

  lemma WholeProduct(rate: real, seconds: real)
    requires IsInteger(rate) && IsInteger(seconds)
    ensures rate * seconds == (rate.Floor * seconds.Floor) as real
  {
    assert rate.Floor as real * seconds.Floor as real == (rate.Floor * seconds.Floor) as real;
  }

  /**
   forDuration on every pair of doubles: bad arguments and overflows are rejected, and every
   other charge is ChargeOf.
   */
  lemma ForDurationIs(rate: real, seconds: real)
    ensures ForDuration(rate, seconds) ==
            if !IsInteger(rate) then Err(InvalidRate)
            else if rate >= 0.0 && !IsInteger(seconds) then Err(InvalidDuration)
            else ChargeOf(rate.Floor, seconds.Floor)
  {
    if IsInteger(rate) && IsInteger(seconds) && rate >= 0.0 && seconds >= 0.0 {
      var n := Numerator(rate.Floor, seconds.Floor);
      WholeProduct(rate, seconds);
      ProductCheck(n);
      if Safe(n) {
        QuotientIsCharged(n);
      }
    }
  }

  /**
   The documented half-up rounding holds of a charge exactly when the product is not 2^53 - 393,
   and then the charge is one too high.
   */
  lemma HalfUpUnless(rate: nat, seconds: nat)
    ensures ForDuration(rate as real, seconds as real) ==
            (if Safe(Numerator(rate, seconds)) then Ok(HalfUp(Numerator(rate, seconds))) else Err(ChargeOverflow))
            <==> Numerator(rate, seconds) != MISROUNDED
  {
    ForDurationIs(rate as real, seconds as real);
  }

  /** The exception is reachable: an hourly rate of 2^53 - 393 for one second. */
  lemma OneTooHigh()
    ensures ForDuration(9007199254740599.0, 1.0) == Ok(HalfUp(9007199254740599) + 1)
  {
    ForDurationIs(9007199254740599.0, 1.0);
    assert Numerator(9007199254740599, 1) == MISROUNDED;
  }

  /** A charge is made exactly for whole numbers, neither negative, whose product is a safe integer. */
  lemma ForDurationSucceedsIff(rate: real, seconds: real)
    ensures ForDuration(rate, seconds).Ok? <==>
            && IsInteger(rate) && IsInteger(seconds) && rate >= 0.0 && seconds >= 0.0
            && rate * seconds <= MAX_SAFE_INTEGER as real
  {
    ForDurationIs(rate, seconds);
    if IsInteger(rate) && IsInteger(seconds) {
      WholeProduct(rate, seconds);
    }
  }

  /** Within the safe range the charge is within half a unit of rate * seconds / 3600, the misrounded product apart. */
  lemma ChargeIsNearest(rate: nat, seconds: nat)
    ensures ChargeOf(rate, seconds).Ok? <==> rate * seconds <= MAX_SAFE_INTEGER
    ensures ChargeOf(rate, seconds).Ok? && rate * seconds != MISROUNDED ==>
              -1800 <= rate * seconds - SECONDS_PER_HOUR * ChargeOf(rate, seconds).value < 1800
  {
    HalfUpIsNearest(Numerator(rate, seconds), HalfUp(Numerator(rate, seconds)));
  }

  /** A longer stay at the same rate never costs less. */
  lemma ChargeMonotone(rate: int, shorter: int, longer: int)
    requires shorter <= longer && ChargeOf(rate, longer).Ok? && shorter >= 0
    ensures ChargeOf(rate, shorter).Ok? && ChargeOf(rate, shorter).value <= ChargeOf(rate, longer).value
  {
    NumeratorMonotone(rate, shorter, longer);
  }

  lemma NumeratorMonotone(rate: nat, shorter: nat, longer: nat)
    requires shorter <= longer
    ensures Numerator(rate, shorter) <= Numerator(rate, longer)
  {}

  // ----- Addition and subtraction -----

  lemma RoundedSum(n: int)
    ensures FromMinor(Fl(n as real)) == Minor(n)
  {
    if n >= 0 {
      ProductCheck(n);
    } else {
      ProductCheck(-n);
      assert Fl(n as real) == -Fl((-n) as real);
      if !Safe(n) {
        LargeStaysLarge((-n) as real);
        assert Fl(n as real) == (-(FlPos((-n) as real).Floor)) as real;
      }
    }
  }

  /** Addition is exact when the true sum is safe and fails otherwise; it never returns a rounded sum. */
  lemma AddExact(a: int, b: int)
    ensures Add(a, b) == if Safe(a + b) then Ok(a + b) else Err(UnsafeInteger)
  {
    RoundedSum(a + b);
  }

  lemma SubtractExact(a: int, b: int)
    ensures Subtract(a, b) == if Safe(a - b) then Ok(a - b) else Err(UnsafeInteger)
  {
    RoundedSum(a - b);
  }

  /** Adding and then subtracting the same amount gives the first amount back. */
  lemma AddSubtract(a: int, b: int)
    requires Safe(a) && Add(a, b).Ok?
    ensures Subtract(Add(a, b).value, b) == Ok(a)
  {
    AddExact(a, b);
    SubtractExact(a + b, b);
  }

  // ----- Seconds between two instants -----

  /** Math.round((to - from) / 1000) in doubles; Math.round takes the upper integer on a tie. */
  function RoundedSeconds(millis: int): int {
    (Fl(Fl(millis as real) / 1000.0) + 0.5).Floor
  }

  lemma SecondsPositive(d: int)
    requires 0 < d <= 9007199254740992
    ensures var y := d as real / 1000.0; var r := (d + 500) / 1000;
            r as real - 0.5 <= FlPos(y) < r as real + 0.5
    ensures var y := d as real / 1000.0; var r := (500 - d) / 1000;
            r as real - 0.5 <= -FlPos(y) < r as real + 0.5
  {
    var y := d as real / 1000.0;
    SmallPowers();
    HalfUlp(y, 9);
    var r := (d + 500) / 1000;
    assert d + 500 == 1000 * r + (d + 500) % 1000;
    assert r as real - 0.5 <= y <= r as real + 0.5 - 0.001;
    HalvesNotCrossed(y, 2 * r - 1);
    var u := (500 - d) / 1000;
    assert 500 - d == 1000 * u + (500 - d) % 1000;
    assert u as real - 0.5 <= -y <= u as real + 0.5 - 0.001;
    HalvesNotCrossed(y, 1 - 2 * u);
  }

  lemma HalvesNotCrossed(y: real, h: int)
    requires 0.0 < y < TWO52
    ensures h as real / 2.0 <= y ==> h as real / 2.0 <= FlPos(y)
    ensures y <= h as real / 2.0 ==> FlPos(y) <= h as real / 2.0
  {
    DoesNotCross(2.0 * y, h);
    assert FlPos(y) == FlPos(2.0 * y) / 2.0;
  }

  /** For instants at most 2^53 ms apart the double computation is exact half-up rounding. */
  lemma RoundedSecondsExact(millis: int)
    requires -9007199254740992 <= millis <= 9007199254740992
    ensures RoundedSeconds(millis) == (millis + 500) / 1000
  {
    IntegersExact(millis);
    if millis > 0 {
      SecondsPositive(millis);
    } else if millis < 0 {
      SecondsPositive(-millis);
      assert -(millis as real / 1000.0) == (-millis) as real / 1000.0;
    }
  }
}
