/**
 * The aggregation at the end of parse_pnc_statement_pdf: all rows are sorted by date, only the
 * rows of the year under analysis are kept, duplicate rows are dropped and every row is stamped
 * with the account name taken from the output path.
 */
module Ledger {
  import opened Wrappers
  import opened Dates
  import opened Tokens
  import opened PathNames

  /** A row of the written spreadsheet: the parsed row and its 'account' column. */
  datatype LedgerRow = LedgerRow(row: Row, account: string)

  /** Rows in chronological order. */
  predicate SortedByDate(rows: seq<Row>) {
    forall i, j :: 0 <= i < j < |rows| ==> NotAfter(rows[i].date, rows[j].date)
  }

  /** Inserts x in front of the first row it is not after. */
  function InsertByDate(x: Row, rows: seq<Row>): (r: seq<Row>)
    ensures |r| == |rows| + 1
    ensures multiset(r) == multiset(rows) + multiset{x}
  {
    if |rows| == 0 then [x]
    else if NotAfter(x.date, rows[0].date) then [x] + rows
    else
      assert rows == [rows[0]] + rows[1..];
      [rows[0]] + InsertByDate(x, rows[1..])
  }

  /** The rows after inserting x are x and the rows it was inserted into. */
  lemma {:induction false} InsertByDateMembers(x: Row, rows: seq<Row>)
    ensures forall y :: y in InsertByDate(x, rows) <==> y == x || y in rows
  {
    var r := InsertByDate(x, rows);
    forall y ensures y in r <==> y == x || y in rows {
      assert y in r <==> y in multiset(r);
      assert y in rows <==> y in multiset(rows);
    }
  }

  lemma {:induction false} InsertByDateSorted(x: Row, rows: seq<Row>)
    requires SortedByDate(rows)
    ensures SortedByDate(InsertByDate(x, rows))
  {
    if |rows| > 0 && !NotAfter(x.date, rows[0].date) {
      var tail := rows[1..];
      InsertByDateSorted(x, tail);
      InsertByDateMembers(x, tail);
      var rest := InsertByDate(x, tail);
      var r := InsertByDate(x, rows);
      assert r == [rows[0]] + rest;
      NotAfterTotal(x.date, rows[0].date);
      forall j | 1 <= j < |r| ensures NotAfter(r[0].date, r[j].date) {
        var y := rest[j - 1];
        assert r[j] == y && y in rest;
        if y != x {
          var k :| 0 <= k < |tail| && tail[k] == y;
          assert rows[k + 1] == y;
        }
      }
    }
  }

  /** sort_values(by='date'): the rows in chronological order. */
  function SortByDate(rows: seq<Row>): (r: seq<Row>)
    ensures multiset(r) == multiset(rows)
  {
    if |rows| == 0 then []
    else
      assert rows == [rows[0]] + rows[1..];
      InsertByDate(rows[0], SortByDate(rows[1..]))
  }

  /** Sorting by date yields a chronological permutation of the rows. */
  lemma {:induction false} SortByDateSorted(rows: seq<Row>)
    ensures SortedByDate(SortByDate(rows))
  {
    if |rows| > 0 {
      SortByDateSorted(rows[1..]);
      InsertByDateSorted(rows[0], SortByDate(rows[1..]));
    }
  }

  /** The mask on the date's year: the rows of the given year, in order. */
  function InYear(rows: seq<Row>, year: int): (r: seq<Row>)
    ensures forall k :: 0 <= k < |r| ==> r[k].date.year == year && r[k] in rows
    ensures forall x :: x in rows && x.date.year == year ==> x in r
  {
    if |rows| == 0 then []
    else
      var init := InYear(rows[..|rows| - 1], year);
      var x := rows[|rows| - 1];
      assert forall y :: y in rows ==> y in rows[..|rows| - 1] || y == x;
      if x.date.year == year then init + [x] else init
  }

  /** drop_duplicates(): the first occurrence of every row, in order. */
  function DropDuplicates(rows: seq<Row>): (r: seq<Row>)
    ensures forall i, j :: 0 <= i < j < |r| ==> r[i] != r[j]
    ensures forall x :: x in r <==> x in rows
  {
    if |rows| == 0 then []
    else
      var init := DropDuplicates(rows[..|rows| - 1]);
      var x := rows[|rows| - 1];
      assert forall y :: y in rows ==> y in rows[..|rows| - 1] || y == x;
      if x in init then init else init + [x]
  }

  /** Keeping a sub-collection of a chronological sequence in order keeps it chronological. */
  lemma {:induction false} InYearSorted(rows: seq<Row>, year: int)
    requires SortedByDate(rows)
    ensures SortedByDate(InYear(rows, year))
  {
    if |rows| > 0 {
      var init := rows[..|rows| - 1];
      InYearSorted(init, year);
      var x := rows[|rows| - 1];
      var d := InYear(init, year);
      forall k | 0 <= k < |d| ensures NotAfter(d[k].date, x.date) {
        var j :| 0 <= j < |init| && init[j] == d[k];
      }
    }
  }

  lemma {:induction false} DropDuplicatesSorted(rows: seq<Row>)
    requires SortedByDate(rows)
    ensures SortedByDate(DropDuplicates(rows))
  {
    if |rows| > 0 {
      var init := rows[..|rows| - 1];
      DropDuplicatesSorted(init);
      var x := rows[|rows| - 1];
      var d := DropDuplicates(init);
      forall k | 0 <= k < |d| ensures NotAfter(d[k].date, x.date) {
        assert d[k] in init;
        var j :| 0 <= j < |init| && init[j] == d[k];
      }
    }
  }

  /** The parsed rows of the spreadsheet rows, without their account. */
  function Body(out: seq<LedgerRow>): (body: seq<Row>)
    ensures |body| == |out|
    ensures forall k :: 0 <= k < |out| ==> body[k] == out[k].row
  {
    seq(|out|, k requires 0 <= k < |out| => out[k].row)
  }

  /** df['account'] = name: the same account on every row. */
  function Stamp(rows: seq<Row>, account: string): (r: seq<LedgerRow>)
    ensures |r| == |rows|
    ensures forall k :: 0 <= k < |r| ==> r[k] == LedgerRow(rows[k], account)
  {
    seq(|rows|, k requires 0 <= k < |rows| => LedgerRow(rows[k], account))
  }

  /**
   * The spreadsheet rows: concatenated rows sorted by date, masked to the year, de-duplicated and
   * stamped. With no document pd.concat has nothing to concatenate, and with documents but no row
   * the frame has no 'date' column to sort by: both fail, as NoRows.
   */
  function BuildLedger(rows: seq<Row>, yearToAnalyze: int, saveToFpath: string): (r: Result<seq<LedgerRow>, ParseError>)
    ensures r.Err? <==> |rows| == 0
    ensures r.Err? ==> r.error == NoRows
  {
    if |rows| == 0 then Err(NoRows)
    else Ok(Stamp(DropDuplicates(InYear(SortByDate(rows), yearToAnalyze)), GetFnameFromFpath(saveToFpath)))
  }

  /**
   * What the written spreadsheet promises: chronological rows of the analysed year, no two equal,
   * every row of that year present, all stamped with the account name of the output path.
   */
  lemma {:induction false} BuildLedgerSpec(rows: seq<Row>, yearToAnalyze: int, saveToFpath: string)
    requires |rows| > 0
    ensures BuildLedger(rows, yearToAnalyze, saveToFpath).Ok?
    ensures var out := BuildLedger(rows, yearToAnalyze, saveToFpath).value;
            var body := Body(out);
            && SortedByDate(body)
            && (forall k :: 0 <= k < |out| ==> out[k].row.date.year == yearToAnalyze)
            && (forall i, j :: 0 <= i < j < |out| ==> out[i] != out[j])
            && (forall x :: x in rows && x.date.year == yearToAnalyze <==> x in body)
            && (forall k :: 0 <= k < |out| ==> out[k].account == GetFnameFromFpath(saveToFpath))
  {
    var sorted := SortByDate(rows);
    SortByDateSorted(rows);
    var kept := InYear(sorted, yearToAnalyze);
    InYearSorted(sorted, yearToAnalyze);
    var unique := DropDuplicates(kept);
    DropDuplicatesSorted(kept);
    var out := BuildLedger(rows, yearToAnalyze, saveToFpath).value;
    var body := Body(out);
    assert body == unique;
    forall x ensures x in rows && x.date.year == yearToAnalyze <==> x in body {
      assert x in rows <==> x in multiset(sorted);
    }
  }
}
