/**
 * One transaction row: the text columns of a statement line, split on double spaces, become a
 * date, an amount, a description and a category.
 */
module Tokens {
  import opened Wrappers
  import opened TextOps
  import opened Dates

  // ---------------------------------------------------------------------------------------------
  // int() and float() on a column of text

  /** Length of the run of ASCII digits at the start of s. */
  function DigitRun(s: string): (k: nat)
    ensures k <= |s|
    ensures forall i :: 0 <= i < k ==> IsDigit(s[i])
    ensures k == |s| || !IsDigit(s[k])
  {
    if |s| == 0 || !IsDigit(s[0]) then 0 else 1 + DigitRun(s[1..])
  }

  /** An optional '+' or '-' followed by one or more digits and nothing else. */
  function SignedDigits(t: string): (r: Option<int>)
    ensures r.Some? ==> |t| > 0 && (IsDigit(t[0]) || t[0] == '+' || t[0] == '-')
  {
    var neg := |t| > 0 && t[0] == '-';
    var u := if |t| > 0 && (t[0] == '+' || t[0] == '-') then t[1..] else t;
    if |u| > 0 && AllDigits(u) then Some(if neg then -(DigitsValue(u) as int) else DigitsValue(u) as int)
    else None
  }

  /** Python's int(s) for a str: surrounding whitespace is ignored. */
  function PyInt(s: string): (r: Option<int>)
  {
    SignedDigits(Strip(s))
  }

  /** A run of digits reads back as its value. */
  lemma {:induction false} PyIntDigits(s: string)
    requires |s| > 0 && AllDigits(s)
    ensures PyInt(s) == Some(DigitsValue(s) as int)
  {
    assert IsStripped(s);
    StripOfStripped(s);
  }

  /** x * 10^k, one decimal place at a time. */
  function Shift(x: real, k: int): real
    decreases if k >= 0 then k else -k
  {
    if k == 0 then x
    else if k > 0 then Shift(x * 10.0, k - 1)
    else Shift(x / 10.0, k + 1)
  }

  /** The exponent part of a float literal: empty, or 'e'/'E' and a signed digit run. */
  function ExponentOf(s: string): Option<int>
  {
    if |s| == 0 then Some(0)
    else if s[0] != 'e' && s[0] != 'E' then None
    else SignedDigits(s[1..])
  }

  /**
   * An unsigned decimal literal: digits with an optional point (at least one digit in all) and
   * an optional exponent. Its value is the whole digits times 10^e plus the fraction digits times
   * 10^(e - number of fraction digits).
   */
  function UnsignedValue(u: string): (r: Option<real>)
    ensures r.Some? ==> |u| > 0 && (IsDigit(u[0]) || u[0] == '.')
  {
    var a := DigitRun(u);
    var hasPoint := a < |u| && u[a] == '.';
    var f := if hasPoint then u[a + 1..] else u[a..];
    var b := if hasPoint then DigitRun(f) else 0;
    if a + b == 0 then None
    else
      match ExponentOf(f[b..])
      case None => None
      case Some(e) => Some(ScaledDigits(u[..a], f[..b], e))
  }

  /** The value of whole digits, fraction digits and a decimal exponent. */
  function ScaledDigits(whole: string, fraction: string, e: int): real
    requires AllDigits(whole) && AllDigits(fraction)
  {
    Shift(DigitsValue(whole) as real, e) + Shift(DigitsValue(fraction) as real, e - |fraction|)
  }

  /** Python's float(s) for decimal literals: surrounding whitespace ignored, an optional sign. */
  function PyFloat(s: string): (r: Option<real>)
  {
    var t := Strip(s);
    if |t| > 0 && t[0] == '-' then
      match UnsignedValue(t[1..])
      case None => None
      case Some(v) => Some(-v)
    else if |t| > 0 && t[0] == '+' then UnsignedValue(t[1..])
    else UnsignedValue(t)
  }

  /** Text that float() accepts starts, once stripped, with a sign, a digit or a point. */
  lemma {:induction false} PyFloatStart(s: string)
    requires PyFloat(s).Some?
    ensures var t := Strip(s); |t| > 0 && (IsDigit(t[0]) || t[0] in "+-.")
  {
  }

  /** The digit run of digits followed by a non-digit is exactly those digits. */
  lemma {:induction false} DigitRunOf(x: string, rest: string)
    requires AllDigits(x)
    requires |rest| == 0 || !IsDigit(rest[0])
    ensures DigitRun(x + rest) == |x|
  {
    if |x| > 0 {
      assert (x + rest)[1..] == x[1..] + rest;
      DigitRunOf(x[1..], rest);
    } else {
      assert x + rest == rest;
    }
  }

  /** A plain decimal 'digits.digits' reads as its whole digits plus its fraction digits scaled down. */
  lemma {:induction false} UnsignedDecimal(x: string, y: string)
    requires |x| > 0 && AllDigits(x) && AllDigits(y)
    ensures UnsignedValue(x + "." + y) == Some(ScaledDigits(x, y, 0))
  {
    var s := x + "." + y;
    assert UnsignedValue(s) == Some(ScaledDigits(x, y, 0)) by {
      assert s == x + ("." + y);
      DigitRunOf(x, "." + y);
      DigitRunOf(y, "");
      DecimalParts(x, y);
      var a := DigitRun(s);
      var f := s[a + 1..];
      var b := DigitRun(f);
      assert f == y && b == |y| && f[b..] == "" && s[..a] == x && f[..b] == y;
      assert ExponentOf(f[b..]) == Some(0);
      UnsignedPointValue(s, a, f, b, 0);
    }
  }

  lemma {:induction false} ScaledWithoutExponent(x: string, y: string)
    requires AllDigits(x) && AllDigits(y)
    ensures ScaledDigits(x, y, 0) == DigitsValue(x) as real + Shift(DigitsValue(y) as real, -|y|)
  {
    assert Shift(DigitsValue(x) as real, 0) == DigitsValue(x) as real;
  }

  /** UnsignedValue of a literal with a point, from its digit runs and its exponent. */
  lemma {:induction false} UnsignedPointValue(u: string, a: nat, f: string, b: nat, e: int)
    requires a == DigitRun(u) && a < |u| && u[a] == '.' && f == u[a + 1..]
    requires b == DigitRun(f) && a + b > 0 && ExponentOf(f[b..]) == Some(e)
    ensures UnsignedValue(u) == Some(ScaledDigits(u[..a], f[..b], e))
  {
  }

  /** The slices UnsignedValue takes of 'digits.digits'. */
  lemma {:induction false} DecimalParts(x: string, y: string)
    ensures var s := x + "." + y;
            && s[|x|] == '.' && s[|x| + 1..] == y && s[..|x|] == x
            && y + "" == y && y[|y|..] == "" && y[..|y|] == y
  {
  }

  lemma {:induction false} PyFloatDecimal(x: string, y: string)
    requires |x| > 0 && AllDigits(x) && AllDigits(y)
    ensures PyFloat(x + "." + y) == Some(ScaledDigits(x, y, 0))
  {
    var s := x + "." + y;
    assert IsStripped(s) by {
      assert s[0] == x[0];
      if |y| > 0 { assert s[|s| - 1] == y[|y| - 1]; }
    }
    StripOfStripped(s);
    assert IsDigit(s[0]) by { assert s[0] == x[0]; }
    UnsignedDecimal(x, y);
  }

  /** An amount written as digits, a point and two digits of cents reads as dollars plus cents / 100. */
  lemma {:induction false} PyFloatAmount(dollars: string, cents: string)
    requires |dollars| > 0 && AllDigits(dollars) && |cents| == 2 && AllDigits(cents)
    ensures PyFloat(dollars + "." + cents) == Some(ScaledDigits(dollars, cents, 0))
    ensures ScaledDigits(dollars, cents, 0) == DigitsValue(dollars) as real + DigitsValue(cents) as real / 100.0
  {
    PyFloatDecimal(dollars, cents);
    CentsValue(dollars, cents);
  }

  lemma {:induction false} CentsValue(dollars: string, cents: string)
    requires AllDigits(dollars) && |cents| == 2 && AllDigits(cents)
    ensures ScaledDigits(dollars, cents, 0) == DigitsValue(dollars) as real + DigitsValue(cents) as real / 100.0
  {
    ScaledWithoutExponent(dollars, cents);
    assert Shift(DigitsValue(cents) as real, -2) == DigitsValue(cents) as real / 100.0;
  }

  /** The empty column is not a number. */
  lemma {:induction false} PyFloatEmpty()
    ensures PyFloat("").None?
  {
    assert Strip("") == "";
  }

  // ---------------------------------------------------------------------------------------------
  // The blocklist: patterns erased from description columns

  /** The four blocklisted regexes, in the order they are applied. */
  datatype Blocked =
    | OtherBanking       // There were \d+ other Banking
    | CardDeductions     // Machine/Debit Card deductions\n?
    | Totaling           // totaling
    | PageReference      // \d+\.\d\d\.\n?

  const Blocklist: seq<Blocked> := [OtherBanking, CardDeductions, Totaling, PageReference]

  /** 1 when s continues with a newline at index i (the optional \n? of a pattern), else 0. */
  function OptionalNewline(s: string, i: nat): (n: nat)
    ensures n <= 1
    ensures n == 1 <==> i < |s| && s[i] == '\n'
  {
    if i < |s| && s[i] == '\n' then 1 else 0
  }

  /** Length of the match of pattern p at the start of s (re.match), if any; matches are never empty. */
  function MatchLen(p: Blocked, s: string): (r: Option<nat>)
    ensures r.Some? ==> 0 < r.value <= |s|
  {
    match p
    case OtherBanking =>
      if !StartsWith(s, "There were ") then None
      else
        var t := s[11..];
        var k := DigitRun(t);
        if k >= 1 && StartsWith(t[k..], " other Banking") then Some(11 + k + 14) else None
    case CardDeductions =>
      if StartsWith(s, "Machine/Debit Card deductions") then Some(29 + OptionalNewline(s, 29)) else None
    case Totaling =>
      if StartsWith(s, "totaling") then Some(8) else None
    case PageReference =>
      var k := DigitRun(s);
      if k >= 1 && k + 4 <= |s| && s[k] == '.' && IsDigit(s[k + 1]) && IsDigit(s[k + 2]) && s[k + 3] == '.'
      then Some(k + 4 + OptionalNewline(s, k + 4))
      else None
  }

  /** Pattern p matches s at index i. */
  predicate MatchAt(p: Blocked, s: string, i: nat) {
    i < |s| && MatchLen(p, s[i..]).Some?
  }

  /** re.sub(p, '', s): erase the leftmost non-overlapping matches, scanning left to right. */
  function RemoveAll(p: Blocked, s: string): (r: string)
    ensures |r| <= |s|
    decreases |s|
  {
    if |s| == 0 then ""
    else
      match MatchLen(p, s)
      case Some(n) => RemoveAll(p, s[n..])
      case None => [s[0]] + RemoveAll(p, s[1..])
  }

  /** re.sub changes the text exactly when the pattern matches somewhere in it. */
  lemma {:induction false} RemoveAllUnchanged(p: Blocked, s: string)
    ensures RemoveAll(p, s) == s <==> forall i: nat :: !MatchAt(p, s, i)
    decreases |s|
  {
    if |s| > 0 {
      match MatchLen(p, s)
      case Some(n) =>
        assert MatchAt(p, s, 0) by { assert s[0..] == s; }
      case None =>
        RemoveAllUnchanged(p, s[1..]);
        forall i: nat | i + 1 < |s| ensures MatchAt(p, s, i + 1) == MatchAt(p, s[1..], i) {
          assert s[i + 1..] == s[1..][i..];
        }
        if forall i: nat :: !MatchAt(p, s[1..], i) {
          forall i: nat ensures !MatchAt(p, s, i) {
            if i == 0 {
              assert s[0..] == s;
            } else if i < |s| {
              assert !MatchAt(p, s[1..], i - 1);
            }
          }
        } else {
          var i: nat :| MatchAt(p, s[1..], i);
          assert MatchAt(p, s, i + 1);
          assert RemoveAll(p, s[1..]) != s[1..];
          assert RemoveAll(p, s)[1..] == RemoveAll(p, s[1..]);
        }
    }
  }

  /** Apply the patterns ps in order, each followed by strip(), as the description cleanup does. */
  function CleanWith(ps: seq<Blocked>, v: string): (r: string)
    ensures |r| <= |v|
    ensures |ps| > 0 ==> IsStripped(r)
  {
    if |ps| == 0 then v
    else
      var w := Strip(RemoveAll(ps[0], v));
      StripSpec(RemoveAll(ps[0], v));
      if |ps| == 1 then w else CleanWith(ps[1..], w)
  }

  /** A description column after all blocklisted patterns are erased. */
  function CleanToken(v: string): (r: string)
    ensures IsStripped(r) && |r| <= |v|
  {
    CleanWith(Blocklist, v)
  }

  /** Cleaning leaves stripped text that no pattern matches as it is. */
  lemma {:induction false} CleanWithUnchanged(ps: seq<Blocked>, v: string)
    requires IsStripped(v)
    requires forall k, i: nat :: 0 <= k < |ps| ==> !MatchAt(ps[k], v, i)
    ensures CleanWith(ps, v) == v
  {
    if |ps| > 0 {
      RemoveAllUnchanged(ps[0], v);
      assert forall i: nat :: !MatchAt(ps[0], v, i);
      StripOfStripped(v);
      if |ps| > 1 {
        forall k, i: nat | 0 <= k < |ps[1..]| ensures !MatchAt(ps[1..][k], v, i) {
          assert ps[1..][k] == ps[k + 1];
        }
        CleanWithUnchanged(ps[1..], v);
      }
    }
  }

  // ---------------------------------------------------------------------------------------------
  // From columns to a row

  /** A transaction row as the parser builds it; a missing key of the row dict is None. */
  datatype Row = Row(date: Date, amount: Option<real>, description: string, category: Option<string>)

  /**
   * The date column 'mm/dd': month and day read with int() from the pieces around the first '/',
   * the year resolved from the statement period.
   */
  function RowDate(token: string, period: Period, yearToAnalyze: int): (r: Result<Date, ParseError>)
    ensures r.Ok? ==> IsValidDate(r.value.year, r.value.month, r.value.day)
    ensures r.Err? ==> r.error == MalformedRowDate || r.error == InvalidRowDate || r.error == AmbiguousYear
  {
    var parts := SplitOn(token, "/");
    match PyInt(parts[0])
    case None => Err(MalformedRowDate)
    case Some(month) =>
      if |parts| < 2 then Err(MalformedRowDate)
      else
        match PyInt(parts[1])
        case None => Err(MalformedRowDate)
        case Some(day) =>
          match ResolveYear(period, month, yearToAnalyze)
          case Err(e) => Err(e)
          case Ok(y) => MakeDate(y, month, day)
  }

  /** A date column written 'mm/dd' gives that month and day in the resolved year, when it exists. */
  lemma {:induction false} RowDateOfText(month: nat, day: nat, period: Period, yearToAnalyze: int)
    requires month < 100 && day < 100
    ensures var r := RowDate(Padded(month, 2) + "/" + Padded(day, 2), period, yearToAnalyze);
            var y := ResolveYear(period, month, yearToAnalyze);
            (r.Ok? <==> y.Ok? && IsValidDate(y.value, month, day)) &&
            (r.Ok? ==> r.value == Date(y.value, month, day)) &&
            (r.Err? ==> r.error == if y.Err? then y.error else InvalidRowDate)
  {
    var m := Padded(month, 2);
    var d := Padded(day, 2);
    SplitMonthDay(m, d);
    assert Pow10(2) == 100;
    PyIntDigits(m);
    PaddedValue(month, 2);
    PyIntDigits(d);
    PaddedValue(day, 2);
  }

  /** Two digits, a slash and two digits split on '/' into the two numerals. */
  lemma {:induction false} SplitMonthDay(m: string, d: string)
    requires |m| == 2 && |d| == 2 && AllDigits(m) && AllDigits(d)
    ensures SplitOn(m + "/" + d, "/") == [m, d]
  {
    var token := m + "/" + d;
    assert OccursAt(token, "/", 2) by { assert token[2..3] == "/"; }
    assert !OccursAt(token, "/", 0) && !OccursAt(token, "/", 1) by {
      assert token[0..1] == [m[0]];
      assert token[1..2] == [m[1]];
    }
    assert IndexOf(token, "/") == Some(2);
    assert token[..2] == m && token[3..] == d;
    assert IndexOf(d, "/").None? by {
      assert forall j: nat :: j + 1 <= |d| ==> d[j..j + 1] == [d[j]];
    }
  }

  /** float() applied to each column. */
  function Numbers(vs: seq<string>): (r: seq<Option<real>>)
    ensures |r| == |vs|
  {
    if |vs| == 0 then [] else Numbers(vs[..|vs| - 1]) + [PyFloat(vs[|vs| - 1])]
  }

  lemma {:induction false} NumbersAppend(vs: seq<string>, ws: seq<string>)
    ensures Numbers(vs + ws) == Numbers(vs) + Numbers(ws)
    decreases |ws|
  {
    if |ws| == 0 {
      assert vs + ws == vs;
    } else {
      var ws' := ws[..|ws| - 1];
      assert (vs + ws)[..|vs + ws| - 1] == vs + ws';
      NumbersAppend(vs, ws');
    }
  }

  /** The last value present: the amount is the last column, after the date, that float() accepts. */
  function LastSome(xs: seq<Option<real>>): (r: Option<real>)
    ensures r.None? <==> forall k :: 0 <= k < |xs| ==> xs[k].None?
  {
    if |xs| == 0 then None
    else if xs[|xs| - 1].Some? then xs[|xs| - 1]
    else
      var r := LastSome(xs[..|xs| - 1]);
      assert forall k :: 0 <= k < |xs| - 1 ==> xs[..|xs| - 1][k] == xs[k];
      r
  }

  /** The amount comes from a numeric column with no numeric column after it. */
  lemma {:induction false} LastSomeIsLast(xs: seq<Option<real>>)
    requires LastSome(xs).Some?
    ensures exists k :: 0 <= k < |xs| && xs[k] == LastSome(xs) && forall j :: k < j < |xs| ==> xs[j].None?
  {
    var n := |xs| - 1;
    if xs[n].None? {
      var init := xs[..n];
      LastSomeIsLast(init);
      var k :| 0 <= k < |init| && init[k] == LastSome(init) && forall j :: k < j < |init| ==> init[j].None?;
      assert init[k] == xs[k];
      forall j | k < j < |xs| ensures xs[j].None? {
        if j < n { assert init[j] == xs[j]; }
      }
    }
  }

  lemma {:induction false} LastSomeAppend(xs: seq<Option<real>>, ys: seq<Option<real>>)
    ensures LastSome(xs + ys) == if LastSome(ys).Some? then LastSome(ys) else LastSome(xs)
    decreases |ys|
  {
    if |ys| == 0 {
      assert xs + ys == xs;
    } else {
      var ys' := ys[..|ys| - 1];
      assert (xs + ys)[..|xs + ys| - 1] == xs + ys';
      LastSomeAppend(xs, ys');
    }
  }

  /** What a description column contributes: nothing if it is a number or cleans to nothing. */
  function DescToken(v: string): (r: seq<string>)
    ensures |r| <= 1
    ensures forall k :: 0 <= k < |r| ==> r[k] != "" && IsStripped(r[k])
  {
    if PyFloat(v).Some? then []
    else
      var c := CleanToken(v);
      if c == "" then [] else [c]
  }

  /** The contribution of each description column. */
  function Pieces(vs: seq<string>): (r: seq<seq<string>>)
    ensures |r| == |vs|
  {
    if |vs| == 0 then [] else Pieces(vs[..|vs| - 1]) + [DescToken(vs[|vs| - 1])]
  }

  lemma {:induction false} PiecesAppend(vs: seq<string>, ws: seq<string>)
    ensures Pieces(vs + ws) == Pieces(vs) + Pieces(ws)
    decreases |ws|
  {
    if |ws| == 0 {
      assert vs + ws == vs;
    } else {
      var ws' := ws[..|ws| - 1];
      assert (vs + ws)[..|vs + ws| - 1] == vs + ws';
      PiecesAppend(vs, ws');
    }
  }

  function Flatten(pss: seq<seq<string>>): (r: seq<string>)
  {
    if |pss| == 0 then [] else Flatten(pss[..|pss| - 1]) + pss[|pss| - 1]
  }

  lemma {:induction false} FlattenAppend(pss: seq<seq<string>>, qss: seq<seq<string>>)
    ensures Flatten(pss + qss) == Flatten(pss) + Flatten(qss)
    decreases |qss|
  {
    if |qss| == 0 {
      assert pss + qss == pss;
    } else {
      var qss' := qss[..|qss| - 1];
      assert (pss + qss)[..|pss + qss| - 1] == pss + qss';
      FlattenAppend(pss, qss');
    }
  }

  /** The description words: the cleaned, non-empty, non-numeric columns in order. */
  function DescTokens(vs: seq<string>): seq<string>
  {
    Flatten(Pieces(vs))
  }
  /** Description words are stripped. */
  lemma {:induction false} DescTokensStripped(vs: seq<string>)
    ensures forall k :: 0 <= k < |DescTokens(vs)| ==> IsStripped(DescTokens(vs)[k])
  {
    if |vs| > 0 {
      var init := vs[..|vs| - 1];
      DescTokensStripped(init);
      assert Pieces(vs)[..|vs| - 1] == Pieces(init);
      assert DescTokens(vs) == DescTokens(init) + DescToken(vs[|vs| - 1]);
    }
  }


  /** The columns between the date and the last column. */
  function MiddleTokens(values: seq<string>): (r: seq<string>)
    ensures |values| >= 2 ==> r == values[1..|values| - 1]
    ensures |values| < 2 ==> r == []
  {
    if |values| >= 2 then values[1..|values| - 1] else []
  }

  /** The category: the stripped last column, when it is not the date and not a number. */
  function CategoryOf(values: seq<string>): (r: Option<string>)
    ensures r.Some? <==> |values| >= 2 && PyFloat(values[|values| - 1]).None?
  {
    if |values| >= 2 && PyFloat(values[|values| - 1]).None? then Some(Strip(values[|values| - 1])) else None
  }

  /** strip() applied to each piece. */
  function StripEach(vs: seq<string>): (r: seq<string>)
    ensures |r| == |vs|
  {
    seq(|vs|, k requires 0 <= k < |vs| => Strip(vs[k]))
  }

  lemma {:induction false} StripEachStripped(vs: seq<string>)
    requires forall k :: 0 <= k < |vs| ==> IsStripped(vs[k])
    ensures StripEach(vs) == vs
  {
    forall k | 0 <= k < |vs| ensures StripEach(vs)[k] == vs[k] {
      StripOfStripped(vs[k]);
    }
  }

  /** The row the column loop builds from the columns of one statement line. */
  function TokensRow(values: seq<string>, period: Period, yearToAnalyze: int): (r: Result<Row, ParseError>)
    requires |values| >= 1
    ensures r.Err? <==> RowDate(values[0], period, yearToAnalyze).Err?
    ensures r.Ok? ==> r.value.date == RowDate(values[0], period, yearToAnalyze).value
    ensures r.Err? ==> r.error == RowDate(values[0], period, yearToAnalyze).error
  {
    match RowDate(values[0], period, yearToAnalyze)
    case Err(e) => Err(e)
    case Ok(d) =>
      Ok(Row(d, LastSome(Numbers(values[1..])), Join(DescTokens(MiddleTokens(values)), " "), CategoryOf(values)))
  }

  /** Erases each blocklisted pattern in turn from a description column, stripping after each. */
  method CleanColumn(v: string) returns (c: string)
    ensures c == CleanToken(v)
  {
    c := v;
    var k := 0;
    while k < |Blocklist|
      invariant 0 <= k <= |Blocklist|
      invariant CleanWith(Blocklist[k..], c) == CleanToken(v)
    {
      assert Blocklist[k..][1..] == Blocklist[k + 1..];
      c := Strip(RemoveAll(Blocklist[k], c));
      k := k + 1;
    }
  }

  /** Builds the row of a transaction line's columns: the date first, then the remaining columns. */
  method AssembleRow(values: seq<string>, period: Period, yearToAnalyze: int) returns (r: Result<Row, ParseError>)
    requires |values| >= 1
    ensures r == TokensRow(values, period, yearToAnalyze)
  {
    var date := RowDate(values[0], period, yearToAnalyze);
    if date.Err? {
      return Err(date.error);
    }
    var amount, description, category := ReadColumns(values);
    r := Ok(Row(date.value, amount, description, category));
  }

  /** The column loop after the date: numbers, the category and description columns. */
  method ReadColumns(values: seq<string>) returns (amount: Option<real>, description: string, category: Option<string>)
    requires |values| >= 1
    ensures amount == LastSome(Numbers(values[1..]))
    ensures description == Join(DescTokens(MiddleTokens(values)), " ")
    ensures category == CategoryOf(values)
  {
    amount := None;
    category := None;
    var remaining: seq<string> := [];
    var i := 1;
    while i < |values|
      invariant 1 <= i <= |values|
      invariant amount == LastSome(Numbers(values[1..i]))
      invariant category == if i == |values| then CategoryOf(values) else None
      invariant remaining == DescTokens(if i < |values| then values[1..i] else MiddleTokens(values))
    {
      amount, category, remaining := TakeColumn(values, i, amount, category, remaining);
      i := i + 1;
    }
    assert values[1..i] == values[1..];
    DescTokensStripped(MiddleTokens(values));
    StripEachStripped(remaining);
    description := Join(StripEach(remaining), " ");
  }

  /** One pass of the column loop: column i is an amount, the category, or description text. */
  method TakeColumn(values: seq<string>, i: nat, amount: Option<real>, category: Option<string>, remaining: seq<string>)
    returns (amount': Option<real>, category': Option<string>, remaining': seq<string>)
    requires 1 <= i < |values|
    requires amount == LastSome(Numbers(values[1..i]))
    requires remaining == DescTokens(values[1..i])
    requires category.None?
    ensures amount' == LastSome(Numbers(values[1..i + 1]))
    ensures category' == if i + 1 == |values| then CategoryOf(values) else None
    ensures remaining' == DescTokens(if i + 1 < |values| then values[1..i + 1] else MiddleTokens(values))
  {
    ColumnAmountStep(values, i);
    ColumnDescriptionStep(values, i);
    assert i + 1 == |values| ==> MiddleTokens(values) == values[1..i];
    amount', category', remaining' := amount, category, remaining;
    var value := values[i];
    match PyFloat(value) {
      case Some(x) =>
        amount' := Some(x);
      case None =>
        if i == |values| - 1 {
          category' := Some(Strip(value));
        } else {
          value := CleanColumn(value);
          if value != "" {
            remaining' := remaining + [value];
          }
        }
    }
  }


  /** Column i of the loop updates the amount when float() accepts it. */
  lemma {:induction false} ColumnAmountStep(values: seq<string>, i: nat)
    requires 1 <= i < |values|
    ensures LastSome(Numbers(values[1..i + 1])) ==
            if PyFloat(values[i]).Some? then PyFloat(values[i]) else LastSome(Numbers(values[1..i]))
  {
    assert values[1..i + 1] == values[1..i] + [values[i]];
    NumbersAppend(values[1..i], [values[i]]);
    LastSomeAppend(Numbers(values[1..i]), [PyFloat(values[i])]);
  }

  /** Column i of the loop adds its description word, if any. */
  lemma {:induction false} ColumnDescriptionStep(values: seq<string>, i: nat)
    requires 1 <= i < |values|
    ensures DescTokens(values[1..i + 1]) == DescTokens(values[1..i]) + DescToken(values[i])
  {
    assert values[1..i + 1] == values[1..i] + [values[i]];
    PiecesAppend(values[1..i], [values[i]]);
    FlattenAppend(Pieces(values[1..i]), [DescToken(values[i])]);
    assert Flatten([DescToken(values[i])]) == DescToken(values[i]) by {
      assert [DescToken(values[i])][..0] == [];
    }
  }


  // ---------------------------------------------------------------------------------------------
  // A statement line with its section heading appended

  /** The nine spaces put between a transaction line and its section heading. */
  const RowGap := "         "

  /** No two spaces in a row. */
  predicate NoDoubleSpace(s: string) {
    forall j :: 0 <= j < |s| - 1 ==> s[j] != ' ' || s[j + 1] != ' '
  }

  /** A piece without a double space is not split any further. */
  lemma {:induction false} SplitOnSingleSpaced(s: string)
    requires NoDoubleSpace(s)
    ensures SplitOn(s, "  ") == [s]
  {
    forall j: nat | j + 2 <= |s| ensures !OccursAt(s, "  ", j) {
      assert s[j..j + 2] == [s[j], s[j + 1]];
    }
    assert IndexOf(s, "  ").None?;
  }

  /** A leading separator gives an empty first piece. */
  lemma {:induction false} SplitLeadingGap(x: string)
    ensures SplitOn("  " + x, "  ") == [""] + SplitOn(x, "  ")
  {
    var s := "  " + x;
    assert s[0..2] == "  ";
    assert IndexOf(s, "  ") == Some(0);
    assert s[2..] == x;
  }

  lemma {:induction false} SpaceNoDoubleSpace(cat: string)
    requires |cat| > 0 && cat[0] != ' ' && NoDoubleSpace(cat)
    ensures NoDoubleSpace(" " + cat)
  {
    var t := " " + cat;
    forall j | 0 <= j < |t| - 1 ensures t[j] != ' ' || t[j + 1] != ' ' {
      if j > 0 {
        assert t[j] == cat[j - 1] && t[j + 1] == cat[j];
      }
    }
  }

  /** The gap and a heading split into three empty columns and the heading behind one space. */
  lemma {:induction false} SplitGapHeading(cat: string)
    requires |cat| > 0 && cat[0] != ' ' && NoDoubleSpace(cat)
    ensures SplitOn("  " + ("  " + ("  " + (" " + cat))), "  ") == ["", "", "", " " + cat]
  {
    var one := " " + cat;
    SpaceNoDoubleSpace(cat);
    SplitOnSingleSpaced(one);
    SplitLeadingGap(one);
    SplitLeadingGap("  " + one);
    SplitLeadingGap("  " + ("  " + one));
  }

  /** The nine-space gap is a double space followed by the three double spaces and a space. */
  lemma {:induction false} RowGapShape(line: string, cat: string)
    ensures line + RowGap + cat == line + "  " + ("  " + ("  " + ("  " + (" " + cat))))
  {
  }

  lemma {:induction false} StripAfterSpace(s: string)
    requires |s| > 0 && IsStripped(s)
    ensures Strip(" " + s) == s
  {
    var t := " " + s;
    assert t[1..] == s;
    assert Lead(t) == 1;
    assert t[1..][..|s| - Trail(s)] == s;
  }

  /** A line that does not end in a space cannot start a double space at its end. */
  lemma {:induction false} LineNoStraddle(line: string)
    requires |line| > 0 && line[|line| - 1] != ' '
    ensures NoStraddle(line, "  ")
  {
    forall j: nat | j < |line| < j + 2 ensures !OccursAt(line + "  ", "  ", j) {
      assert (line + "  ")[j] == line[|line| - 1];
    }
  }

  /**
   * The columns of a transaction line joined to its heading: the line's own columns, then three
   * empty ones, then the heading.
   */
  lemma {:induction false} SplitRowLine(line: string, cat: string)
    requires |line| > 0 && line[|line| - 1] != ' '
    requires |cat| > 0 && cat[0] != ' ' && NoDoubleSpace(cat)
    ensures SplitOn(line + RowGap + cat, "  ") == SplitOn(line, "  ") + ["", "", "", " " + cat]
  {
    LineNoStraddle(line);
    SplitOnConcat(line, "  ", "  " + ("  " + ("  " + (" " + cat))));
    RowGapShape(line, cat);
    SplitGapHeading(cat);
  }

  /** Columns float() rejects contribute no amount. */
  lemma {:induction false} NumbersNone(vs: seq<string>)
    requires forall k :: 0 <= k < |vs| ==> PyFloat(vs[k]).None?
    ensures LastSome(Numbers(vs)).None?
  {
    if |vs| > 0 {
      var init := vs[..|vs| - 1];
      assert forall k :: 0 <= k < |init| ==> init[k] == vs[k];
      NumbersNone(init);
      LastSomeAppend(Numbers(init), [PyFloat(vs[|vs| - 1])]);
    }
  }

  /** Columns that contribute no piece contribute no description word. */
  lemma {:induction false} DescTokensNone(vs: seq<string>)
    requires forall k :: 0 <= k < |vs| ==> DescToken(vs[k]) == []
    ensures DescTokens(vs) == []
  {
    if |vs| > 0 {
      var init := vs[..|vs| - 1];
      assert forall k :: 0 <= k < |init| ==> init[k] == vs[k];
      DescTokensNone(init);
    }
  }

  /** The columns the gap and the heading add carry no amount and no description word. */
  lemma {:induction false} GapColumns(cat: string)
    requires |cat| > 0 && IsStripped(cat)
    requires !IsDigit(cat[0]) && cat[0] !in "+-."
    ensures LastSome(Numbers(["", "", "", " " + cat])).None?
    ensures DescTokens(["", "", ""]) == []
  {
    StripAfterSpace(cat);
    if PyFloat(" " + cat).Some? {
      PyFloatStart(" " + cat);
    }
    PyFloatEmpty();
    assert CleanToken("") == "" by {
      CleanWithUnchanged(Blocklist, "");
    }
    var tail := ["", "", "", " " + cat];
    forall k | 0 <= k < |tail| ensures PyFloat(tail[k]).None? {
      if k < 3 { assert tail[k] == ""; }
    }
    NumbersNone(tail);
    var empties := ["", "", ""];
    forall k | 0 <= k < |empties| ensures DescToken(empties[k]) == [] {
      assert empties[k] == "";
    }
    DescTokensNone(empties);
  }

  /** Columns without a number after the columns leave the amount unchanged. */
  lemma {:induction false} TailAmount(cols: seq<string>, tail: seq<string>)
    requires |cols| >= 1
    requires LastSome(Numbers(tail)).None?
    ensures LastSome(Numbers((cols + tail)[1..])) == LastSome(Numbers(cols[1..]))
  {
    assert (cols + tail)[1..] == cols[1..] + tail;
    NumbersAppend(cols[1..], tail);
    LastSomeAppend(Numbers(cols[1..]), Numbers(tail));
  }

  /** Middle columns without a description word after the columns add no description word. */
  lemma {:induction false} TailDescription(cols: seq<string>, middle: seq<string>, last: string)
    requires |cols| >= 1
    requires DescTokens(middle) == []
    ensures DescTokens(MiddleTokens(cols + middle + [last])) == DescTokens(cols[1..])
  {
    assert MiddleTokens(cols + middle + [last]) == cols[1..] + middle;
    PiecesAppend(cols[1..], middle);
    FlattenAppend(Pieces(cols[1..]), Pieces(middle));
    assert DescTokens(cols[1..]) + [] == DescTokens(cols[1..]);
  }

  /** The gap columns and a heading after the columns leave the amount unchanged. */
  lemma {:induction false} GapTailAmount(cols: seq<string>, cat: string)
    requires |cols| >= 1
    requires |cat| > 0 && IsStripped(cat)
    requires !IsDigit(cat[0]) && cat[0] !in "+-."
    ensures LastSome(Numbers((cols + ["", "", "", " " + cat])[1..])) == LastSome(Numbers(cols[1..]))
  {
    GapColumns(cat);
    TailAmount(cols, ["", "", "", " " + cat]);
  }

  /** The gap columns add no description word. */
  lemma {:induction false} GapTailDescription(cols: seq<string>, cat: string)
    requires |cols| >= 1
    requires |cat| > 0 && IsStripped(cat)
    requires !IsDigit(cat[0]) && cat[0] !in "+-."
    ensures DescTokens(MiddleTokens(cols + ["", "", "", " " + cat])) == DescTokens(cols[1..])
  {
    GapColumns(cat);
    assert cols + ["", "", "", " " + cat] == cols + ["", "", ""] + [" " + cat];
    TailDescription(cols, ["", "", ""], " " + cat);
  }

  /** The heading behind the gap is the category. */
  lemma {:induction false} GapTailCategory(cols: seq<string>, cat: string)
    requires |cat| > 0 && IsStripped(cat)
    requires !IsDigit(cat[0]) && cat[0] !in "+-."
    ensures CategoryOf(cols + ["", "", "", " " + cat]) == Some(cat)
  {
    StripAfterSpace(cat);
    if PyFloat(" " + cat).Some? {
      PyFloatStart(" " + cat);
    }
  }

  /**
   * The fields of the row built from a transaction line under a heading: the category is the
   * heading, the amount is the last numeric column after the date, and the description is the
   * cleaned text columns after the date joined by single spaces.
   */
  lemma {:induction false} RowFields(line: string, cat: string, period: Period, yearToAnalyze: int)
    requires |line| > 0 && line[|line| - 1] != ' '
    requires |cat| > 0 && IsStripped(cat) && NoDoubleSpace(cat)
    requires !IsDigit(cat[0]) && cat[0] !in "+-."
    ensures var cols := SplitOn(line, "  ");
            var r := TokensRow(SplitOn(line + RowGap + cat, "  "), period, yearToAnalyze);
            (r.Ok? <==> RowDate(cols[0], period, yearToAnalyze).Ok?) &&
            (r.Ok? ==>
               && r.value.category == Some(cat)
               && r.value.amount == LastSome(Numbers(cols[1..]))
               && r.value.description == Join(DescTokens(cols[1..]), " "))
  {
    var cols := SplitOn(line, "  ");
    SplitRowLine(line, cat);
    GapTailAmount(cols, cat);
    GapTailDescription(cols, cat);
    GapTailCategory(cols, cat);
  }
}
