/** Money as decimal text: Money.toString, Money.fromString and the bigint column transformer. */
module MoneyText {
  import opened Wrappers
  import opened Binary64
  import opened Money

  predicate IsDigit(c: char) {
    '0' <= c <= '9'
  }

  function DigitValue(c: char): (d: nat)
    requires IsDigit(c)
    ensures d < 10
  {
    (c - '0') as nat
  }

  predicate AllDigits(s: string) {
    forall i :: 0 <= i < |s| ==> IsDigit(s[i])
  }

  /** The natural number a string of digits denotes, leading zeros included. */
  function Natural(s: string): nat
    requires AllDigits(s)
  {
    if s == "" then 0 else 10 * Natural(s[..|s| - 1]) + DigitValue(s[|s| - 1])
  }

  /** The decimal digits of a natural number, as Number.prototype.toString gives them for a safe one. */
  function Digits(n: nat): (s: string)
    ensures s != "" && AllDigits(s)
    ensures n > 0 ==> s[0] != '0'
  {
    if n < 10 then ['0' + n as char] else Digits(n / 10) + ['0' + (n % 10) as char]
  }

  lemma {:induction false} NaturalOfDigits(n: nat)
    ensures Natural(Digits(n)) == n
  {
    var s := Digits(n);
    if n >= 10 {
      NaturalOfDigits(n / 10);
      assert s[..|s| - 1] == Digits(n / 10);
    } else {
      assert s[..0] == "";
    }
  }

  /** Money.toString. */
  function ToText(n: int): string {
    if n < 0 then "-" + Digits(-n) else Digits(n)
  }

  /** The pattern ^-?\d+$ of Money.fromString. */
  predicate IsDecimal(s: string) {
    if s != "" && s[0] == '-' then |s| > 1 && AllDigits(s[1..]) else s != "" && AllDigits(s)
  }

  /** The integer a decimal string denotes. */
  function Denoted(s: string): int
    requires IsDecimal(s)
  {
    if s[0] == '-' then -(Natural(s[1..]) as int) else Natural(s)
  }

  /** Money.fromString: the pattern, then Number(value), which rounds to a double, then fromMinor. */
  function FromString(s: string): Result<int, MoneyError> {
    if !IsDecimal(s) then Err(NotDecimal) else FromMinor(Fl(Denoted(s) as real))
  }

  lemma DenotedOfText(n: int)
    ensures IsDecimal(ToText(n)) && Denoted(ToText(n)) == n
  {
    if n < 0 {
      NaturalOfDigits(-n);
      assert ToText(n)[1..] == Digits(-n);
    } else {
      NaturalOfDigits(n);
    }
  }

  /** Different amounts have different texts. */
  lemma TextInjective(a: int, b: int)
    requires ToText(a) == ToText(b)
    ensures a == b
  {
    DenotedOfText(a);
    DenotedOfText(b);
  }

  /**
   Parsing is exact: a string is accepted if and only if it is decimal and denotes a safe integer,
   and then the amount is the integer denoted. Rounding never brings an unsafe value back.
   */
  lemma FromStringExact(s: string, v: int)
    ensures FromString(s) == Ok(v) <==> IsDecimal(s) && Denoted(s) == v && Safe(v)
  {
    if IsDecimal(s) {
      RoundedSum(Denoted(s));
    }
  }

  /** fromString undoes toString on every amount. */
  lemma TextRoundTrip(n: int)
    requires Safe(n)
    ensures FromString(ToText(n)) == Ok(n)
  {
    DenotedOfText(n);
    FromStringExact(ToText(n), n);
  }

  // ----- The column transformer -----

  datatype Parsed = NaN | Number(value: real)

  /** parseInt(text, 10) on text without leading blanks: an optional sign, then the longest run of digits. */
  function ParseInt(s: string): Parsed {
    if s != "" && (s[0] == '-' || s[0] == '+') then
      var run := DigitRun(s[1..]);
      if run == "" then NaN
      else Number(if s[0] == '-' then -Fl(Natural(run) as real) else Fl(Natural(run) as real))
    else
      var run := DigitRun(s);
      if run == "" then NaN else Number(Fl(Natural(run) as real))
  }

  function DigitRun(s: string): (r: string)
    ensures AllDigits(r)
  {
    if s != "" && IsDigit(s[0]) then [s[0]] + DigitRun(s[1..]) else ""
  }

  lemma {:induction false} DigitRunOfDigits(s: string)
    requires AllDigits(s)
    ensures DigitRun(s) == s
  {
    if s != "" {
      DigitRunOfDigits(s[1..]);
    }
  }

  function Truncate(x: real): int {
    if x < 0.0 then -((-x).Floor) else x.Floor
  }

  /** Truncation is towards zero. */
  lemma TruncateTowardsZero(x: real)
    ensures x >= 0.0 ==> Truncate(x) as real <= x < Truncate(x) as real + 1.0
    ensures x <= 0.0 ==> Truncate(x) as real - 1.0 < x <= Truncate(x) as real
  {}

  /** The transformer's `to` on safe numbers: null stays null, a number is truncated and written in decimal. */
  function ToColumn(value: Option<real>): Option<string> {
    match value
    case None => None
    case Some(x) => Some(ToText(Truncate(x)))
  }

  /** The transformer's `from`: null stays null, a bigint read back as text goes through parseInt. */
  function FromColumn(column: Option<string>): Option<Parsed> {
    match column
    case None => None
    case Some(s) => Some(ParseInt(s))
  }

  /** What comes back from a bigint column is the stored integer rounded to a double. */
  lemma ColumnReadsRounded(n: int)
    ensures FromColumn(Some(ToText(n))) == Some(Number(Fl(n as real)))
  {
    if n < 0 {
      NaturalOfDigits(-n);
      assert ToText(n)[1..] == Digits(-n);
      DigitRunOfDigits(Digits(-n));
      assert -(n as real) == (-n) as real;
    } else {
      NaturalOfDigits(n);
      DigitRunOfDigits(Digits(n));
      assert ToText(n)[0] != '-' && ToText(n)[0] != '+';
    }
  }

  /**
   A text Number.prototype.toString may give for the whole number n below 10^21: the digits of a safe integer,
   and beyond the safe range digits that denote a number rounding to n (section 6.1.6.1.20 of ECMA-262).
   */
  ghost predicate Prints(text: string, n: int) {
    && -1000000000000000000000 < n < 1000000000000000000000
    && Canonical(text) && Fl(Denoted(text) as real) == n as real && (Safe(n) ==> text == ToText(n))
  }

  /** A decimal text that is not "-0" or the like. */
  ghost predicate Canonical(text: string) {
    IsDecimal(text) && text == ToText(Denoted(text))
  }

  /** Truncation takes a double to a double. */
  lemma TruncateIsDouble(x: real)
    requires Fl(x) == x
    ensures Fl(Truncate(x) as real) == Truncate(x) as real
  {
    var y := if x < 0.0 then -x else x;
    if y >= TWO52 {
      FlIsNearest(y);
      FractionsAreSmall(y);
      assert Truncate(x) as real == x;
    } else {
      IntegersExact(Truncate(x));
    }
  }

  /** Every double below 10^21 has such a text: its own digits are one. */
  lemma PrintsExists(x: real)
    requires Fl(x) == x && -1000000000000000000000 < Truncate(x) < 1000000000000000000000
    ensures exists text :: Prints(text, Truncate(x))
  {
    TruncateIsDouble(x);
    DenotedOfText(Truncate(x));
    assert Prints(ToText(Truncate(x)), Truncate(x));
  }

  /** Every double below 10^21 written to the column comes back truncated; a whole one comes back unchanged. */
  lemma ColumnRoundTrip(x: real, text: string)
    requires Fl(x) == x && Prints(text, Truncate(x))
    ensures FromColumn(Some(text)) == Some(Number(Truncate(x) as real))
    ensures IsInteger(x) ==> FromColumn(Some(text)) == Some(Number(x))
    ensures Safe(Truncate(x)) ==> ToColumn(Some(x)) == Some(text)
  {
    ColumnReadsRounded(Denoted(text));
    if IsInteger(x) && x < 0.0 {
      assert -x == (-(x.Floor)) as real;
      assert (-x).Floor == -(x.Floor);
    }
  }

  /** Null is null in the column and back. */
  lemma ColumnKeepsNull(value: Option<real>, column: Option<string>)
    ensures ToColumn(value).None? <==> value.None?
    ensures FromColumn(column).None? <==> column.None?
  {}

  /** The column is lossless exactly on the integers that are doubles, every amount among them. */
  lemma ColumnLossless(n: int)
    ensures FromColumn(Some(ToText(n))) == Some(Number(n as real)) <==> Fl(n as real) == n as real
    ensures Safe(n) ==> FromColumn(Some(ToText(n))) == Some(Number(n as real))
  {
    ColumnReadsRounded(n);
    if Safe(n) {
      IntegersExact(n);
    }
  }

  /** A bigint beyond the safe range can come back changed: 2^53 + 1 reads as 2^53. */
  lemma ColumnLossy()
    ensures FromColumn(Some(ToText(9007199254740993))) == Some(Number(9007199254740992.0))
  {
    ColumnReadsRounded(9007199254740993);
    var x := 4503599627370496.5;
    assert x.Floor == 4503599627370496;
    assert RoundEven(x) == 4503599627370496;
    assert FlPos(x) == 4503599627370496.0;
    FlDoubles(x);
    assert 9007199254740993 as real == 2.0 * x;
  }
}
