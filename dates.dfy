/** Calendar dates, the statement period and the year a transaction row belongs to. */
module Dates {
  import opened Wrappers
  import opened TextOps

  /** A datetime.datetime at midnight: the parser never sets a time of day. */
  datatype Date = Date(year: int, month: int, day: int)

  /** The statement period: the two dates of the 'For the period' line. */
  datatype Period = Period(start: Date, end: Date)

  predicate IsLeapYear(y: int) {
    y % 4 == 0 && (y % 100 != 0 || y % 400 == 0)
  }

  function DaysInMonth(y: int, m: int): (n: int)
    requires 1 <= m <= 12
    ensures 28 <= n <= 31
    ensures n == 29 <==> m == 2 && IsLeapYear(y)
    ensures n == 31 <==> m in {1, 3, 5, 7, 8, 10, 12}
    ensures n == 30 <==> m in {4, 6, 9, 11}
    ensures n == 28 <==> m == 2 && !IsLeapYear(y)
  {
    if m == 2 then (if IsLeapYear(y) then 29 else 28)
    else if m in {4, 6, 9, 11} then 30
    else 31
  }

  /** The year, month and day that datetime.datetime accepts (years MINYEAR = 1 to MAXYEAR = 9999). */
  predicate IsValidDate(y: int, m: int, d: int) {
    1 <= y <= 9999 && 1 <= m <= 12 && 1 <= d <= DaysInMonth(y, m)
  }

  /** datetime.datetime(year=y, month=m, day=d): a ValueError unless the date exists. */
  function MakeDate(y: int, m: int, d: int): (r: Result<Date, ParseError>)
    ensures r.Ok? <==> IsValidDate(y, m, d)
    ensures r.Ok? ==> r.value.year == y && r.value.month == m && r.value.day == d
    ensures r.Err? ==> r.error == InvalidRowDate
  {
    if IsValidDate(y, m, d) then Ok(Date(y, m, d)) else Err(InvalidRowDate)
  }

  /** Chronological order of datetimes (a is not after b). */
  predicate NotAfter(a: Date, b: Date) {
    a.year < b.year || (a.year == b.year && (a.month < b.month || (a.month == b.month && a.day <= b.day)))
  }

  lemma {:induction false} NotAfterTotal(a: Date, b: Date)
    ensures NotAfter(a, b) || NotAfter(b, a)
    ensures NotAfter(a, b) && NotAfter(b, a) ==> a == b
  {
  }

  lemma {:induction false} NotAfterTransitive(a: Date, b: Date, c: Date)
    requires NotAfter(a, b) && NotAfter(b, c)
    ensures NotAfter(a, c)
  {
  }

  /** `s` has the layout of `shape`, where 'd' stands for one ASCII digit (the regex class \d{n}). */
  predicate FitsShape(s: string, shape: string) {
    |s| == |shape| &&
    forall k :: 0 <= k < |s| ==> if shape[k] == 'd' then IsDigit(s[k]) else s[k] == shape[k]
  }

  /** The '%m/%d/%Y' layout of a statement date. */
  const DateShape := "dd/dd/dddd"

  /** The layout the period regex searches for. */
  const PeriodShape := "dd/dd/dddd to dd/dd/dddd"

  /** The period regex matches at index i of l. */
  predicate PeriodAt(l: string, i: nat) {
    i + |PeriodShape| <= |l| && FitsShape(l[i..i + |PeriodShape|], PeriodShape)
  }

  /** re.search for the period: the leftmost match at or after `from`. */
  function FindPeriod(l: string, from: nat): (r: Option<nat>)
    ensures r.Some? ==> from <= r.value && PeriodAt(l, r.value)
    ensures r.Some? ==> forall j: nat :: from <= j < r.value ==> !PeriodAt(l, j)
    ensures r.None? ==> forall j: nat :: from <= j ==> !PeriodAt(l, j)
    decreases |l| - from
  {
    if from + |PeriodShape| > |l| then None
    else if PeriodAt(l, from) then Some(from)
    else FindPeriod(l, from + 1)
  }

  /** datetime.strptime(s, '%m/%d/%Y') on text that has the layout 'dd/dd/dddd'. */
  function ParseMdy(s: string): (r: Result<Date, ParseError>)
    requires FitsShape(s, DateShape)
    ensures r.Err? ==> r.error == InvalidPeriodDate
  {
    var month := DigitsValue(s[..2]);
    var day := DigitsValue(s[3..5]);
    var year := DigitsValue(s[6..]);
    if IsValidDate(year, month, day) then Ok(Date(year, month, day)) else Err(InvalidPeriodDate)
  }

  /** The ASCII digit for 0 <= n < 10. */
  function DigitChar(n: int): (c: char)
    requires 0 <= n < 10
    ensures IsDigit(c) && (c as int) - ('0' as int) == n
  {
    (('0' as int) + n) as char
  }

  /** A number below 10^width written with exactly `width` digits, zero padded. */
  function Padded(n: nat, width: nat): (s: string)
    ensures |s| == width && AllDigits(s)
  {
    if width == 0 then "" else Padded(n / 10, width - 1) + [DigitChar(n % 10)]
  }

  /** Reading back a zero-padded number gives the number. */
  lemma {:induction false} PaddedValue(n: nat, width: nat)
    requires n < Pow10(width)
    ensures DigitsValue(Padded(n, width)) == n
  {
    if width > 0 {
      var s := Padded(n, width);
      assert s[..|s| - 1] == Padded(n / 10, width - 1);
      PaddedValue(n / 10, width - 1);
    }
  }

  /** strftime('%m/%d/%Y'). */
  function FormatMdy(d: Date): (s: string)
    requires IsValidDate(d.year, d.month, d.day)
    ensures FitsShape(s, DateShape)
  {
    Padded(d.month, 2) + "/" + Padded(d.day, 2) + "/" + Padded(d.year, 4)
  }

  /** Every valid date survives formatting as '%m/%d/%Y' and parsing back. */
  lemma {:induction false} ParseFormatMdy(d: Date)
    requires IsValidDate(d.year, d.month, d.day)
    ensures ParseMdy(FormatMdy(d)) == Ok(d)
  {
    var s := FormatMdy(d);
    assert s[..2] == Padded(d.month, 2);
    assert s[3..5] == Padded(d.day, 2);
    assert s[6..] == Padded(d.year, 4);
    PaddedValue(d.month, 2);
    PaddedValue(d.day, 2);
    PaddedValue(d.year, 4);
  }

  /** The two halves of a period have the layout of a date. */
  lemma {:induction false} PeriodHalves(m: string)
    requires FitsShape(m, PeriodShape)
    ensures FitsShape(m[..10], DateShape) && FitsShape(m[14..], DateShape)
  {
    forall k | 0 <= k < 10
      ensures if DateShape[k] == 'd' then IsDigit(m[..10][k]) else m[..10][k] == DateShape[k]
    {
      assert PeriodShape[k] == DateShape[k];
    }
    forall k | 0 <= k < 10
      ensures if DateShape[k] == 'd' then IsDigit(m[14..][k]) else m[14..][k] == DateShape[k]
    {
      assert PeriodShape[k + 14] == DateShape[k];
    }
  }

  /** The period text splits on ' to ' into its two dates. */
  lemma {:induction false} PeriodSplit(m: string)
    requires FitsShape(m, PeriodShape)
    ensures SplitOn(m, " to ") == [m[..10], m[14..]]
    ensures FitsShape(m[..10], DateShape) && FitsShape(m[14..], DateShape)
  {
    PeriodHalves(m);
    assert OccursAt(m, " to ", 10) by { assert m[10..14] == " to "; }
    forall j: nat | j < 10 ensures !OccursAt(m, " to ", j) {
      assert m[j] != ' ';
      assert m[j..j + 4][0] == m[j];
    }
    assert IndexOf(m, " to ") == Some(10);
    var rest := m[14..];
    forall j: nat | j + 4 <= |rest| ensures !OccursAt(rest, " to ", j) {
      assert rest[j] == m[14 + j] != ' ';
      assert rest[j..j + 4][0] == rest[j];
    }
    assert IndexOf(rest, " to ").None?;
  }

  /** The 'For the period' line: search the period, split it on ' to ' and parse both halves. */
  function ParsePeriodLine(l: string): (r: Result<Period, ParseError>)
    ensures r == Err(PeriodNotFound) <==> FindPeriod(l, 0).None?
    ensures r.Err? ==> r.error == PeriodNotFound || r.error == InvalidPeriodDate
    ensures FindPeriod(l, 0).Some? ==>
              var i := FindPeriod(l, 0).value;
              var m := l[i..i + |PeriodShape|];
              FitsShape(m[..|DateShape|], DateShape) &&
              FitsShape(m[|PeriodShape| - |DateShape|..], DateShape) &&
              (r.Ok? <==> ParseMdy(m[..|DateShape|]).Ok? && ParseMdy(m[|PeriodShape| - |DateShape|..]).Ok?) &&
              (r.Ok? ==> ParseMdy(m[..|DateShape|]) == Ok(r.value.start) &&
                         ParseMdy(m[|PeriodShape| - |DateShape|..]) == Ok(r.value.end))
  {
    match FindPeriod(l, 0)
    case None => Err(PeriodNotFound)
    case Some(i) =>
      var m := l[i..i + |PeriodShape|];
      PeriodSplit(m);
      var parts := SplitOn(m, " to ");
      match ParseMdy(parts[0])
      case Err(e) => Err(e)
      case Ok(start) =>
        match ParseMdy(parts[|parts| - 1])
        case Err(e) => Err(e)
        case Ok(end) => Ok(Period(start, end))
  }

  /** Two dates joined by ' to ' have the layout of a period. */
  lemma {:induction false} PeriodText(a: string, b: string)
    requires FitsShape(a, DateShape) && FitsShape(b, DateShape)
    ensures FitsShape(a + " to " + b, PeriodShape)
  {
    var m := a + " to " + b;
    forall k | 0 <= k < |m|
      ensures if PeriodShape[k] == 'd' then IsDigit(m[k]) else m[k] == PeriodShape[k]
    {
      if k < 10 {
        assert m[k] == a[k];
      } else if k >= 14 {
        assert m[k] == b[k - 14];
      }
    }
  }

  /** The period search skips text without digits and stops at the first period written out. */
  lemma {:induction false} FindPeriodAfter(prefix: string, m: string, suffix: string)
    requires FitsShape(m, PeriodShape)
    requires forall k :: 0 <= k < |prefix| ==> !IsDigit(prefix[k])
    ensures FindPeriod(prefix + m + suffix, 0) == Some(|prefix|)
  {
    var l := prefix + m + suffix;
    assert l[|prefix|..|prefix| + |PeriodShape|] == m;
    assert PeriodAt(l, |prefix|);
    forall j: nat | j < |prefix| ensures !PeriodAt(l, j) {
      assert l[j] == prefix[j];
      assert l[j..j + |PeriodShape|][0] == l[j];
    }
  }

  /** A line that writes out a period as '%m/%d/%Y to %m/%d/%Y' between two other texts. */
  function PeriodLine(prefix: string, p: Period, suffix: string): (l: string)
    requires IsValidDate(p.start.year, p.start.month, p.start.day)
    requires IsValidDate(p.end.year, p.end.month, p.end.day)
    ensures |l| == |prefix| + |PeriodShape| + |suffix|
  {
    prefix + (FormatMdy(p.start) + " to " + FormatMdy(p.end)) + suffix
  }

  /** A line whose text before the period has no digit parses to exactly the dates written in it. */
  lemma {:induction false} ParsePeriodOfFormatted(prefix: string, p: Period, suffix: string)
    requires IsValidDate(p.start.year, p.start.month, p.start.day)
    requires IsValidDate(p.end.year, p.end.month, p.end.day)
    requires forall k :: 0 <= k < |prefix| ==> !IsDigit(prefix[k])
    ensures ParsePeriodLine(PeriodLine(prefix, p, suffix)) == Ok(p)
  {
    var a := FormatMdy(p.start);
    var b := FormatMdy(p.end);
    var m := a + " to " + b;
    var l := PeriodLine(prefix, p, suffix);
    PeriodText(a, b);
    FindPeriodAfter(prefix, m, suffix);
    assert l[|prefix|..|prefix| + |PeriodShape|] == m;
    PeriodSplit(m);
    assert m[..10] == a && m[14..] == b;
    ParseFormatMdy(p.start);
    ParseFormatMdy(p.end);
  }

  /**
   * The year of a row dated month/day: the caller's year when the period lies in one year;
   * otherwise January rows belong to the end year and December rows to the start year.
   * Any other month leaves the year undetermined.
   */
  function ResolveYear(period: Period, month: int, yearToAnalyze: int): (r: Result<int, ParseError>)
    ensures period.start.year == period.end.year ==> r == Ok(yearToAnalyze)
    ensures period.start.year != period.end.year ==>
              (r.Ok? <==> month == 1 || month == 12) &&
              (r.Ok? && month == 1 ==> r.value == period.end.year) &&
              (r.Ok? && month == 12 ==> r.value == period.start.year)
    ensures r.Err? ==> r.error == AmbiguousYear
  {
    if period.start.year == period.end.year then Ok(yearToAnalyze)
    else if month == 1 then Ok(period.end.year)
    else if month == 12 then Ok(period.start.year)
    else Err(AmbiguousYear)
  }

  /**
   * For a December-to-January statement, a row dated inside the period gets the year that puts
   * its date inside the period.
   */
  lemma {:induction false} ResolvedDateInPeriod(period: Period, month: int, day: int, yearToAnalyze: int)
    requires period.start.month == 12 && period.end.month == 1
    requires period.end.year == period.start.year + 1
    requires (month == 12 && day >= period.start.day) || (month == 1 && day <= period.end.day)
    ensures ResolveYear(period, month, yearToAnalyze).Ok?
    ensures var d := Date(ResolveYear(period, month, yearToAnalyze).value, month, day);
            NotAfter(period.start, d) && NotAfter(d, period.end)
  {
  }
}
