/**
 * The parts of `java.time` the report uses: `LocalDate.toString`, `LocalDate.parse`
 * (ISO 8601 extended calendar date, `DateTimeFormatter.ISO_LOCAL_DATE`, strict
 * resolution) and the years of `Period.between`.
 */
module Calendar {
  import opened Wrappers
  import opened Decimal

  /** A proleptic ISO calendar date; `LocalDate` values are the ones with `ValidDate`. */
  datatype Date = Date(year: int, month: int, day: int)

  /** `Year.MAX_VALUE`: `LocalDate` years lie between `-MaxYear` and `MaxYear`. */
  const MaxYear: int := 999_999_999

  predicate IsLeapYear(year: int) {
    year % 4 == 0 && (year % 100 != 0 || year % 400 == 0)
  }

  function DaysInMonth(year: int, month: int): (n: int)
    requires 1 <= month <= 12
    ensures 28 <= n <= 31
  {
    if month == 2 then (if IsLeapYear(year) then 29 else 28)
    else if month == 4 || month == 6 || month == 9 || month == 11 then 30
    else 31
  }

  predicate ValidDate(d: Date) {
    && -MaxYear <= d.year <= MaxYear
    && 1 <= d.month <= 12
    && 1 <= d.day <= DaysInMonth(d.year, d.month)
  }

  /** `a` is an earlier day than `b`. */
  predicate Before(a: Date, b: Date) {
    a.year < b.year || (a.year == b.year && (a.month < b.month || (a.month == b.month && a.day < b.day)))
  }

  function Abs(x: int): nat {
    if x < 0 then -x else x
  }

  /** The sign `LocalDate.toString` puts before the year: `+` only beyond four digits. */
  function YearSign(year: int): string {
    if year < 0 then "-" else if year > 9999 then "+" else ""
  }

  /** The digits of the year: at least four, zero-padded. */
  function YearDigits(year: int): string {
    if Abs(year) < 1000 then FixedDigits(Abs(year), 4) else NatToDecimal(Abs(year))
  }

  /** `LocalDate.toString`: `uuuu-MM-dd`, e.g. `1990-03-07`, `-0044-03-15`, `+10000-01-01`. */
  function FormatIsoDate(d: Date): string
    requires ValidDate(d)
  {
    YearSign(d.year) + YearDigits(d.year) + "-" + FixedDigits(d.month, 2) + "-" + FixedDigits(d.day, 2)
  }

  /**
   * The year field of `ISO_LOCAL_DATE`: an optional sign and 4 to 10 digits.
   * Without a sign the year has exactly four digits; `+` is accepted only before
   * more than four; `-0000` is refused; the value must be a `LocalDate` year.
   */
  function ParseYear(text: string): (r: Option<int>)
    ensures r.Some? ==> -MaxYear <= r.value <= MaxYear
  {
    var signed := |text| > 0 && (text[0] == '+' || text[0] == '-');
    var digits := if signed then text[1..] else text;
    if !(4 <= |digits| <= 10 && AllDigits(digits)) then None
    else
      var magnitude := DigitsValue(digits);
      if !signed && |digits| != 4 then None
      else if signed && text[0] == '+' && |digits| == 4 then None
      else if signed && text[0] == '-' && magnitude == 0 then None
      else if magnitude > MaxYear then None
      else Some(if signed && text[0] == '-' then -(magnitude as int) else magnitude)
  }

  /**
   * `LocalDate.parse(text)`: the year field, `-`, two month digits, `-`, two day
   * digits and nothing else; the day must exist in that month of that year.
   */
  function ParseIsoDate(text: string): (r: Option<Date>)
    ensures r.Some? ==> ValidDate(r.value)
  {
    var n := |text|;
    if n < 6 then None
    else
      var mm, dd := text[n - 5..n - 3], text[n - 2..];
      if !(text[n - 6] == '-' && AllDigits(mm) && text[n - 3] == '-' && AllDigits(dd)) then None
      else match ParseYear(text[..n - 6])
        case None => None
        case Some(year) =>
          var d := Date(year, DigitsValue(mm), DigitsValue(dd));
          if ValidDate(d) then Some(d) else None
  }

  lemma {:induction false} NumDigitsBounds(n: nat, k: nat)
    ensures 1 <= k && n < Pow10(k) ==> NumDigits(n) <= k
    ensures Pow10(k) <= n ==> k < NumDigits(n)
  {
    if k > 1 && n >= 10 {
      NumDigitsBounds(n / 10, k - 1);
    }
  }

  lemma YearDigitsShape(year: int)
    requires -MaxYear <= year <= MaxYear
    ensures var s := YearDigits(year);
      && AllDigits(s) && 4 <= |s| <= 10 && DigitsValue(s) == Abs(year)
      && (0 <= year <= 9999 <==> |s| == 4 && year >= 0)
  {
    assert Pow10(3) == 1000 && Pow10(4) == 10000;
    assert Pow10(9) == 1_000_000_000 by {
      assert Pow10(5) == 100_000;
    }
    if Abs(year) < 1000 {
      FixedDigitsValue(Abs(year), 4);
    } else {
      NatToDecimalCanonical(Abs(year));
      NumDigitsBounds(Abs(year), 3);
      NumDigitsBounds(Abs(year), 4);
      NumDigitsBounds(Abs(year), 9);
    }
  }

  /** The year text `LocalDate.toString` prints is read back as the same year. */
  lemma ParseYearText(year: int)
    requires -MaxYear <= year <= MaxYear
    ensures ParseYear(YearSign(year) + YearDigits(year)) == Some(year)
  {
    YearDigitsShape(year);
    var sign, digits := YearSign(year), YearDigits(year);
    var text := sign + digits;
    if sign == "" {
      assert text == digits;
      assert text[0] != '+' && text[0] != '-';
    } else {
      assert text[0] == sign[0] && text[1..] == digits;
    }
  }

  /** Every `LocalDate` survives `toString` followed by `parse`. */
  lemma ParseFormatted(d: Date)
    requires ValidDate(d)
    ensures ParseIsoDate(FormatIsoDate(d)) == Some(d)
  {
    var year := YearSign(d.year) + YearDigits(d.year);
    var mm, dd := FixedDigits(d.month, 2), FixedDigits(d.day, 2);
    var text := year + "-" + mm + "-" + dd;
    var n := |text|;
    assert text[..n - 6] == year;
    assert text[n - 5..n - 3] == mm && text[n - 2..] == dd;
    assert text[n - 6] == '-' && text[n - 3] == '-';
    ParseYearText(d.year);
    assert Pow10(2) == 100;
    FixedDigitsValue(d.month, 2);
    FixedDigitsValue(d.day, 2);
    assert Date(d.year, DigitsValue(mm), DigitsValue(dd)) == d;
    assert FormatIsoDate(d) == text;
  }

  /** `LocalDate.toString` never contains a `T`. */
  lemma FormattedHasNoT(d: Date)
    requires ValidDate(d)
    ensures 'T' !in FormatIsoDate(d)
  {
    var text := FormatIsoDate(d);
    YearDigitsShape(d.year);
    var sign, digits := YearSign(d.year), YearDigits(d.year);
    var mm, dd := FixedDigits(d.month, 2), FixedDigits(d.day, 2);
    assert text == sign + digits + "-" + mm + "-" + dd;
    forall i | 0 <= i < |text| ensures text[i] != 'T' {
      if i < |sign| {
        assert text[i] == sign[i];
      } else if i < |sign| + |digits| {
        assert text[i] == digits[i - |sign|];
      } else if i == |sign| + |digits| || i == |sign| + |digits| + 3 {
      } else if i < |sign| + |digits| + 3 {
        assert text[i] == mm[i - |sign| - |digits| - 1];
      } else {
        assert text[i] == dd[i - |sign| - |digits| - 4];
      }
    }
  }

  /** Java's `/` on `long`, which rounds toward zero. */
  function TruncDiv(a: int, b: int): (q: int)
    requires b > 0
    ensures a >= 0 ==> q == a / b
    ensures a < 0 ==> (q - 1) * b < a <= q * b
  {
    if a >= 0 then a / b else
      var n := -a;
      assert (n / b) * b <= n < (n / b + 1) * b;
      -(n / b)
  }

  /**
   * `Period.between(birth, today).getYears()`: whole months between the two dates,
   * one fewer when the day of month has not been reached (one more when counting
   * backwards), truncated to whole years.
   */
  function AgeYears(birth: Date, today: Date): int {
    var totalMonths := (today.year * 12 + today.month - 1) - (birth.year * 12 + birth.month - 1);
    var days := today.day - birth.day;
    var months :=
      if totalMonths > 0 && days < 0 then totalMonths - 1
      else if totalMonths < 0 && days > 0 then totalMonths + 1
      else totalMonths;
    TruncDiv(months, 12)
  }

  /** Birthdays passed: the year difference, less one when this year's birthday is still ahead. */
  function CompletedYears(birth: Date, today: Date): int {
    var birthdayAhead := today.month < birth.month || (today.month == birth.month && today.day < birth.day);
    today.year - birth.year - (if birthdayAhead then 1 else 0)
  }

  /** For a birth date not after today, the period's years are the birthdays passed. */
  lemma AgeYearsIsCompletedYears(birth: Date, today: Date)
    requires ValidDate(birth) && ValidDate(today) && !Before(today, birth)
    ensures AgeYears(birth, today) == CompletedYears(birth, today) >= 0
  {
  }

  /**
   * Swapping the dates negates the years: a birth date a full year or more
   * after today gives a negative age, and less than a year ahead gives 0.
   */
  lemma AgeYearsAntisymmetric(birth: Date, today: Date)
    ensures AgeYears(birth, today) == -AgeYears(today, birth)
  {
  }
}
