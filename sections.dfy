/**
 * The section scan of parse_pnc_statement_pdf: find the statement period, follow the section
 * headings, and build a row from every dated line of a transaction section.
 */
module Sections {
  import opened Wrappers
  import opened TextOps
  import opened Dates
  import opened Tokens
  import opened CustomChars

  /** A section heading and whether its section lists transactions. */
  datatype Heading = Heading(title: string, transactional: bool)

  /** The heading table, in the order the scan tries it. */
  const Categories: seq<Heading> := [
    Heading("Balance Summary", false),
    Heading("Transaction Summary", false),
    Heading("Interest Summary", false),
    Heading("Deposits and Other Additions", true),
    Heading("Checks and Substitute Checks", true),
    Heading("Banking/Debit Card Withdrawals and Purchases", true),
    Heading("Online and Electronic Banking Deductions", true),
    Heading("Daily Balance Detail", false)
  ]

  /** The text that marks the line holding the statement period. */
  const PeriodMarker: string := "For the period"

  /** The layout a row line starts with (the regex \d{2}/\d{2}). */
  const RowDateShape: string := "dd/dd"

  /** A heading usable as the last column of a row: one word run without double spaces, not a number. */
  predicate HeadingWord(t: string) {
    |t| > 0 && IsStripped(t) && NoDoubleSpace(t) && !IsDigit(t[0]) && t[0] !in "+-."
  }

  lemma {:induction false} DepositsWord()
    ensures HeadingWord(Categories[3].title)
  {
  }

  lemma {:induction false} ChecksWord()
    ensures HeadingWord(Categories[4].title)
  {
  }

  lemma {:induction false} CardWord()
    ensures HeadingWord(Categories[5].title)
  {
    var t := "Banking/Debit Card Withdrawals and Purchases";
    assert Categories[5].title == t;
    assert t[0] == 'B';
    forall j | 0 <= j < |t| - 1 ensures t[j] != ' ' || t[j + 1] != ' ' {
    }
  }

  lemma {:induction false} OnlineWord()
    ensures HeadingWord(Categories[6].title)
  {
  }

  /** Every heading of a transaction section can close a row line. */
  lemma {:induction false} TransactionalAreWords(k: nat)
    requires k < |Categories| && Categories[k].transactional
    ensures HeadingWord(Categories[k].title)
  {
    if k == 3 {
      DepositsWord();
    } else if k == 4 {
      ChecksWord();
    } else if k == 5 {
      CardWord();
    } else {
      OnlineWord();
    }
  }

  /**
   * The headings in hs tried in order against line l, starting from the section current:
   * each heading l starts with becomes the section, so the last one wins.
   */
  function LastHeading(hs: seq<Heading>, l: string, current: Option<Heading>): (r: Option<Heading>)
    ensures r == current || (r.Some? && r.value in hs && StartsWith(l, r.value.title))
    ensures (exists k :: 0 <= k < |hs| && StartsWith(l, hs[k].title)) ==>
              r.Some? && r.value in hs && StartsWith(l, r.value.title)
  {
    if |hs| == 0 then current
    else
      var next := if StartsWith(l, hs[0].title) then Some(hs[0]) else current;
      var r := LastHeading(hs[1..], l, next);
      assert forall k :: 1 <= k < |hs| ==> hs[k] == hs[1..][k - 1];
      r
  }

  /** The section in force after line l. */
  function NextSection(l: string, current: Option<Heading>): (r: Option<Heading>)
  {
    LastHeading(Categories, l, current)
  }

  /** The section changes only at a line that starts with a heading, and then to such a heading. */
  lemma {:induction false} NextSectionChanges(l: string, current: Option<Heading>)
    ensures var r := NextSection(l, current);
            r != current ==> r.Some? && r.value in Categories && StartsWith(l, r.value.title)
  {
  }

  /** A heading line is tagged with a heading it starts with. */
  lemma {:induction false} HeadingLineTagged(l: string, current: Option<Heading>, k: nat)
    requires k < |Categories| && StartsWith(l, Categories[k].title)
    ensures var r := NextSection(l, current);
            r.Some? && r.value in Categories && StartsWith(l, r.value.title)
  {
  }

  /** re.match(r'\d{2}/\d{2}', l.strip()): the stripped line starts with a month/day. */
  predicate IsRowLine(l: string) {
    var t := Strip(l);
    |t| >= |RowDateShape| && FitsShape(t[..|RowDateShape|], RowDateShape)
  }

  /** Whether line l, read in section s, yields a row. */
  predicate Emits(s: Option<Heading>, l: string) {
    s.Some? && s.value.transactional && IsRowLine(l)
  }

  /** The row of line l in section h: the heading is appended after nine spaces, then the line is split on double spaces. */
  function RowOf(l: string, h: Heading, period: Period, yearToAnalyze: int): Result<Row, ParseError>
  {
    TokensRow(SplitOn(l + RowGap + h.title, "  "), period, yearToAnalyze)
  }

  /**
   * The fields of the row of a cleaned line in a transaction section: the date comes from the
   * first column, the category is the heading, the amount is the last numeric column and the
   * description joins the cleaned text columns.
   */
  lemma {:induction false} RowOfFields(l: string, k: nat, period: Period, yearToAnalyze: int)
    requires |l| > 0 && IsStripped(l)
    requires k < |Categories| && Categories[k].transactional
    ensures var cols := SplitOn(l, "  ");
            var r := RowOf(l, Categories[k], period, yearToAnalyze);
            (r.Ok? <==> RowDate(cols[0], period, yearToAnalyze).Ok?) &&
            (r.Ok? ==>
               && r.value.date == RowDate(cols[0], period, yearToAnalyze).value
               && r.value.category == Some(Categories[k].title)
               && r.value.amount == LastSome(Numbers(cols[1..]))
               && r.value.description == Join(DescTokens(cols[1..]), " "))
  {
    TransactionalAreWords(k);
    var t := Categories[k].title;
    SplitRowLine(l, t);
    RowFields(l, t, period, yearToAnalyze);
  }

  // ---------------------------------------------------------------------------------------------
  // The scan over the prepared lines of one document

  /** period_found with start/end, current_category ('' is None) and the rows built so far. */
  datatype ScanState = ScanState(period: Option<Period>, section: Option<Heading>, rows: seq<Row>)

  const Initial: ScanState := ScanState(None, None, [])

  /** One pass of the lines loop. */
  function ScanLine(st: ScanState, l: string, yearToAnalyze: int): (r: Result<ScanState, ParseError>)
    ensures st.period.None? && !Contains(l, PeriodMarker) ==> r == Ok(st)
    ensures st.period.None? && r.Ok? ==> r.value.rows == st.rows && r.value.section == st.section
    ensures st.period.None? && Contains(l, PeriodMarker) ==>
              (r.Ok? <==> ParsePeriodLine(l).Ok?) && (r.Ok? ==> r.value.period == Some(ParsePeriodLine(l).value)) &&
              (r.Err? ==> r.error == ParsePeriodLine(l).error)
    ensures st.period.Some? && r.Ok? ==>
              r.value.period == st.period && r.value.section == NextSection(l, st.section)
    ensures st.period.Some? ==>
              var s := NextSection(l, st.section);
              if Emits(s, l) then
                (r.Err? <==> RowOf(l, s.value, st.period.value, yearToAnalyze).Err?) &&
                (r.Err? ==> r.error == RowOf(l, s.value, st.period.value, yearToAnalyze).error) &&
                (r.Ok? ==> r.value.rows == st.rows + [RowOf(l, s.value, st.period.value, yearToAnalyze).value])
              else r.Ok? && r.value.rows == st.rows
  {
    if st.period.None? then
      if Contains(l, PeriodMarker) then
        match ParsePeriodLine(l)
        case Err(e) => Err(e)
        case Ok(p) => Ok(ScanState(Some(p), st.section, st.rows))
      else Ok(st)
    else
      var s := NextSection(l, st.section);
      if Emits(s, l) then
        match RowOf(l, s.value, st.period.value, yearToAnalyze)
        case Err(e) => Err(e)
        case Ok(row) => Ok(ScanState(st.period, s, st.rows + [row]))
      else Ok(ScanState(st.period, s, st.rows))
  }

  /** The scan state after the lines, or the first error. */
  function Scan(lines: seq<string>, yearToAnalyze: int): (r: Result<ScanState, ParseError>)
    ensures r.Ok? ==> |r.value.rows| <= |lines|
    ensures r.Ok? && r.value.period.None? ==> r.value.rows == [] && r.value.section.None?
    ensures r.Ok? && r.value.section.Some? ==> r.value.section.value in Categories
  {
    if |lines| == 0 then Ok(Initial)
    else
      match Scan(lines[..|lines| - 1], yearToAnalyze)
      case Err(e) => Err(e)
      case Ok(st) => ScanLine(st, lines[|lines| - 1], yearToAnalyze)
  }

  /** The rows of one document's prepared lines. */
  function StatementRows(lines: seq<string>, yearToAnalyze: int): Result<seq<Row>, ParseError>
  {
    match Scan(lines, yearToAnalyze)
    case Err(e) => Err(e)
    case Ok(st) => Ok(st.rows)
  }

  /**
   * The lines loop of parse_pnc_statement_pdf over one document's prepared lines: the first line
   * with the period marker gives the period, then headings switch the section and dated lines of
   * transaction sections become rows.
   */
  method ScanSections(lines: seq<string>, yearToAnalyze: int) returns (r: Result<seq<Row>, ParseError>)
    ensures r == StatementRows(lines, yearToAnalyze)
  {
    var period: Option<Period> := None;
    var current: Option<Heading> := None;
    var rows: seq<Row> := [];
    var i := 0;
    while i < |lines|
      invariant 0 <= i <= |lines|
      invariant Scan(lines[..i], yearToAnalyze) == Ok(ScanState(period, current, rows))
    {
      var l := lines[i];
      assert lines[..i + 1][..i] == lines[..i];
      if Contains(l, PeriodMarker) && period.None? {
        var p := ParsePeriodLine(l);
        if p.Err? {
          ScanErrorStops(lines, i + 1, yearToAnalyze);
          return Err(p.error);
        }
        period := Some(p.value);
      } else if period.Some? {
        current := FollowHeadings(Categories, l, current);
        if current.Some? && current.value.transactional && IsRowLine(l) {
          var values := SplitOn(l + RowGap + current.value.title, "  ");
          var row := AssembleRow(values, period.value, yearToAnalyze);
          if row.Err? {
            ScanErrorStops(lines, i + 1, yearToAnalyze);
            return Err(row.error);
          }
          rows := rows + [row.value];
        }
      }
      i := i + 1;
    }
    assert lines[..i] == lines;
    r := Ok(rows);
  }

  /** The heading loop: each heading of hs the line starts with becomes the current section. */
  method FollowHeadings(hs: seq<Heading>, l: string, current: Option<Heading>) returns (next: Option<Heading>)
    ensures next == LastHeading(hs, l, current)
  {
    next := current;
    var k := 0;
    while k < |hs|
      invariant 0 <= k <= |hs|
      invariant LastHeading(hs[k..], l, next) == LastHeading(hs, l, current)
    {
      assert hs[k..][1..] == hs[k + 1..];
      if StartsWith(l, hs[k].title) {
        next := Some(hs[k]);
      }
      k := k + 1;
    }
  }

  // ---------------------------------------------------------------------------------------------
  // Properties of the scan

  /**
   * A line marked as starting in column 1 is inert in the scan: its cleaned form starts with '_',
   * which no heading and no month/day does, so once the period is known it changes nothing.
   */
  lemma {:induction false} MarkedLineInert(txt: string, startsInColumnOne: bool, st: ScanState, yearToAnalyze: int)
    requires MarksColumnOne(txt, startsInColumnOne)
    ensures var l := RmCustomChars(txt, startsInColumnOne);
            && !IsRowLine(l)
            && (forall k :: 0 <= k < |Categories| ==> !StartsWith(l, Categories[k].title))
            && (st.period.Some? ==> ScanLine(st, l, yearToAnalyze) == Ok(st))
  {
    MarkedLineStartsWithUnderscore(txt, startsInColumnOne);
    UnderscoreLineInert(RmCustomChars(txt, startsInColumnOne), st, yearToAnalyze);
  }

  /** A cleaned line starting with '_' opens no section and yields no row. */
  lemma {:induction false} UnderscoreLineInert(l: string, st: ScanState, yearToAnalyze: int)
    requires IsStripped(l) && |l| > 0 && l[0] == '_'
    ensures !IsRowLine(l)
    ensures forall k :: 0 <= k < |Categories| ==> !StartsWith(l, Categories[k].title)
    ensures st.period.Some? ==> ScanLine(st, l, yearToAnalyze) == Ok(st)
  {
    StripOfStripped(l);
    forall k | 0 <= k < |Categories| ensures !StartsWith(l, Categories[k].title) {
      assert Categories[k].title[0] != '_';
    }
    assert NextSection(l, st.section) == st.section;
  }

  /** A failed line ends the document: the scan of all lines fails the same way. */
  lemma {:induction false} ScanErrorStops(lines: seq<string>, n: nat, yearToAnalyze: int)
    requires n <= |lines| && Scan(lines[..n], yearToAnalyze).Err?
    ensures Scan(lines, yearToAnalyze) == Scan(lines[..n], yearToAnalyze)
    ensures StatementRows(lines, yearToAnalyze) == Err(Scan(lines[..n], yearToAnalyze).error)
    decreases |lines| - n
  {
    if n < |lines| {
      var init := lines[..|lines| - 1];
      assert init[..n] == lines[..n];
      ScanErrorStops(init, n, yearToAnalyze);
    } else {
      assert lines[..n] == lines;
    }
  }

  /** Lines before the period marker produce nothing and change nothing. */
  lemma {:induction false} ScanWithoutMarker(lines: seq<string>, yearToAnalyze: int)
    requires forall k :: 0 <= k < |lines| ==> !Contains(lines[k], PeriodMarker)
    ensures Scan(lines, yearToAnalyze) == Ok(Initial)
  {
    if |lines| > 0 {
      var init := lines[..|lines| - 1];
      assert forall k :: 0 <= k < |init| ==> init[k] == lines[k];
      ScanWithoutMarker(init, yearToAnalyze);
    }
  }

  /**
   * Up to and including the first line with the period marker, no row is built and no section is
   * entered; the period is the one parsed from that line.
   */
  lemma {:induction false} ScanThroughFirstMarker(lines: seq<string>, j: nat, yearToAnalyze: int)
    requires j < |lines| && Contains(lines[j], PeriodMarker)
    requires forall k :: 0 <= k < j ==> !Contains(lines[k], PeriodMarker)
    ensures var r := Scan(lines[..j + 1], yearToAnalyze);
            (r.Ok? <==> ParsePeriodLine(lines[j]).Ok?) &&
            (r.Ok? ==> r.value == ScanState(Some(ParsePeriodLine(lines[j]).value), None, []))
  {
    var pre := lines[..j];
    assert lines[..j + 1][..j] == pre;
    assert forall k :: 0 <= k < |pre| ==> pre[k] == lines[k];
    ScanWithoutMarker(pre, yearToAnalyze);
  }

  /**
   * Once the period is found it never changes, and the rows built so far stay in front of every
   * later row.
   */
  lemma {:induction false} ScanKeepsPeriod(lines: seq<string>, n: nat, yearToAnalyze: int)
    requires n <= |lines| && Scan(lines, yearToAnalyze).Ok?
    ensures Scan(lines[..n], yearToAnalyze).Ok?
    ensures var before := Scan(lines[..n], yearToAnalyze).value;
            var after := Scan(lines, yearToAnalyze).value;
            && (before.period.Some? ==> after.period == before.period)
            && |before.rows| <= |after.rows| && after.rows[..|before.rows|] == before.rows
    decreases |lines| - n
  {
    if n < |lines| {
      var init := lines[..|lines| - 1];
      assert init[..n] == lines[..n];
      ScanKeepsPeriod(init, n, yearToAnalyze);
      var mid := Scan(init, yearToAnalyze).value;
      var before := Scan(lines[..n], yearToAnalyze).value;
      var after := Scan(lines, yearToAnalyze).value;
      assert after.rows[..|mid.rows|] == mid.rows;
      assert after.rows[..|before.rows|] == mid.rows[..|before.rows|];
    } else {
      assert lines[..n] == lines;
    }
  }

  /** A heading of the table that the scan can be in is a transaction heading when it emits. */
  lemma {:induction false} EmittingSection(l: string, current: Option<Heading>) returns (k: nat)
    requires current.None? || current.value in Categories
    requires Emits(NextSection(l, current), l)
    ensures k < |Categories| && Categories[k] == NextSection(l, current).value && Categories[k].transactional
  {
    var s := NextSection(l, current).value;
    assert s in Categories;
    k :| 0 <= k < |Categories| && Categories[k] == s;
  }

  /**
   * The row a line adds: its date from the first column, the section heading as category, the
   * last numeric column as amount and the cleaned text columns as description.
   */
  lemma {:induction false} ScanLineRow(st: ScanState, l: string, yearToAnalyze: int)
    requires st.period.Some? && IsStripped(l)
    requires st.section.None? || st.section.value in Categories
    requires Emits(NextSection(l, st.section), l) && ScanLine(st, l, yearToAnalyze).Ok?
    ensures var s := NextSection(l, st.section).value;
            var row := RowOf(l, s, st.period.value, yearToAnalyze);
            var cols := SplitOn(l, "  ");
            && s.transactional && row.Ok?
            && ScanLine(st, l, yearToAnalyze).value.rows == st.rows + [row.value]
            && RowDate(cols[0], st.period.value, yearToAnalyze) == Ok(row.value.date)
            && row.value.category == Some(s.title)
            && row.value.amount == LastSome(Numbers(cols[1..]))
            && row.value.description == Join(DescTokens(cols[1..]), " ")
  {
    var k := EmittingSection(l, st.section);
    RowOfFields(l, k, st.period.value, yearToAnalyze);
  }

  /** The category of a row is the heading of a transaction section. */
  predicate TransactionCategory(r: Row) {
    exists k :: 0 <= k < |Categories| && Categories[k].transactional && r.category == Some(Categories[k].title)
  }

  /** Every row of a scan over cleaned lines carries the heading of a transaction section as category. */
  lemma {:induction false} ScanRowsCategories(lines: seq<string>, yearToAnalyze: int)
    requires forall k :: 0 <= k < |lines| ==> IsStripped(lines[k])
    requires Scan(lines, yearToAnalyze).Ok?
    ensures var rows := Scan(lines, yearToAnalyze).value.rows;
            forall i :: 0 <= i < |rows| ==> TransactionCategory(rows[i])
  {
    if |lines| > 0 {
      var init := lines[..|lines| - 1];
      var l := lines[|lines| - 1];
      assert forall k :: 0 <= k < |init| ==> init[k] == lines[k];
      ScanRowsCategories(init, yearToAnalyze);
      ScanLineCategories(Scan(init, yearToAnalyze).value, l, yearToAnalyze);
    }
  }

  /** A line of the scan adds at most one row, and that row is categorised under a transaction heading. */
  lemma {:induction false} ScanLineCategories(st: ScanState, l: string, yearToAnalyze: int)
    requires IsStripped(l)
    requires st.section.None? || st.section.value in Categories
    requires forall i :: 0 <= i < |st.rows| ==> TransactionCategory(st.rows[i])
    requires ScanLine(st, l, yearToAnalyze).Ok?
    ensures var rows := ScanLine(st, l, yearToAnalyze).value.rows;
            forall i :: 0 <= i < |rows| ==> TransactionCategory(rows[i])
  {
    if st.period.Some? && Emits(NextSection(l, st.section), l) {
      ScanLineRow(st, l, yearToAnalyze);
      var k := EmittingSection(l, st.section);
      var row := RowOf(l, Categories[k], st.period.value, yearToAnalyze).value;
      assert TransactionCategory(row);
    }
  }
}
