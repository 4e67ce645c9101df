/**
 * parse_pnc_statement_pdf as a whole: each document's text is split into lines, classified,
 * prepared and scanned for rows; the rows of all documents are then aggregated into the ledger.
 * The documents are given as their extracted text, in the order they are read.
 */
module Statement {
  import opened Wrappers
  import opened TextOps
  import opened Layout
  import opened LinePrep
  import opened Tokens
  import opened Sections
  import opened Ledger
  import opened PathNames

  /** rows_that_start_in_colIdx1 as a set of line indices. */
  function ColumnOneLines(lines: seq<string>): set<nat>
    requires |lines| > 0
  {
    set i: nat | i < |lines| && IsColumnOne(WsCounts(lines), i)
  }

  /** The rows of one document's text. */
  function DocumentRows(text: string, yearToAnalyze: int): Result<seq<Row>, ParseError>
  {
    var lines := SplitLines(text);
    StatementRows(PreparedLines(lines, ColumnOneLines(lines)), yearToAnalyze)
  }

  /** The body of the documents loop for one document's text. */
  method ParseDocument(text: string, yearToAnalyze: int) returns (r: Result<seq<Row>, ParseError>)
    ensures r == DocumentRows(text, yearToAnalyze)
  {
    var lines := SplitLines(text);
    var flagged := FlagColumnOne(lines);
    assert flagged == ColumnOneLines(lines);
    var newLines := PrepareLines(lines, flagged);
    r := ScanSections(newLines, yearToAnalyze);
  }

  /** Every row of a document carries the heading of a transaction section as its category. */
  lemma {:induction false} DocumentRowCategories(text: string, yearToAnalyze: int)
    requires DocumentRows(text, yearToAnalyze).Ok?
    ensures var rows := DocumentRows(text, yearToAnalyze).value;
            forall i :: 0 <= i < |rows| ==> TransactionCategory(rows[i])
  {
    var lines := SplitLines(text);
    var prepared := PreparedLines(lines, ColumnOneLines(lines));
    PreparedLinesClean(lines, ColumnOneLines(lines));
    ScanRowsCategories(prepared, yearToAnalyze);
  }

  /** The outcome of every document, in the order the documents are read. */
  function DocumentResults(texts: seq<string>, yearToAnalyze: int): (r: seq<Result<seq<Row>, ParseError>>)
    ensures |r| == |texts|
    ensures forall i :: 0 <= i < |texts| ==> r[i] == DocumentRows(texts[i], yearToAnalyze)
  {
    seq(|texts|, i requires 0 <= i < |texts| => DocumentRows(texts[i], yearToAnalyze))
  }

  /** The rows of all documents in order (pd.concat), or the first document's failure. */
  function CollectRows(docs: seq<Result<seq<Row>, ParseError>>): Result<seq<Row>, ParseError>
  {
    if |docs| == 0 then Ok([])
    else
      match CollectRows(docs[..|docs| - 1])
      case Err(e) => Err(e)
      case Ok(rows) =>
        match docs[|docs| - 1]
        case Err(e) => Err(e)
        case Ok(more) => Ok(rows + more)
  }

  /** The written spreadsheet for the documents. */
  function ParseStatements(texts: seq<string>, yearToAnalyze: int, saveToFpath: string): Result<seq<LedgerRow>, ParseError>
  {
    match CollectRows(DocumentResults(texts, yearToAnalyze))
    case Err(e) => Err(e)
    case Ok(rows) => BuildLedger(rows, yearToAnalyze, saveToFpath)
  }

  /**
   * parse_pnc_statement_pdf over the extracted texts of the statement files: parse every document,
   * concatenate their rows and aggregate them.
   */
  method ParsePncStatementPdf(texts: seq<string>, yearToAnalyze: int, saveToFpath: string)
    returns (r: Result<seq<LedgerRow>, ParseError>)
    ensures r == ParseStatements(texts, yearToAnalyze, saveToFpath)
  {
    ghost var docs := DocumentResults(texts, yearToAnalyze);
    var rows: seq<Row> := [];
    var i := 0;
    while i < |texts|
      invariant 0 <= i <= |texts|
      invariant CollectRows(docs[..i]) == Ok(rows)
    {
      var docRows := ParseDocument(texts[i], yearToAnalyze);
      CollectRowsStep(docs, i);
      if docRows.Err? {
        CollectErrorStops(docs, i + 1);
        return Err(docRows.error);
      }
      rows := rows + docRows.value;
      i := i + 1;
    }
    assert docs[..i] == docs;
    r := BuildLedger(rows, yearToAnalyze, saveToFpath);
  }

  /** Collecting one more document: its rows are appended, or its failure ends the run. */
  lemma {:induction false} CollectRowsStep(docs: seq<Result<seq<Row>, ParseError>>, i: nat)
    requires i < |docs| && CollectRows(docs[..i]).Ok?
    ensures docs[i].Ok? ==> CollectRows(docs[..i + 1]) == Ok(CollectRows(docs[..i]).value + docs[i].value)
    ensures docs[i].Err? ==> CollectRows(docs[..i + 1]) == Err(docs[i].error)
  {
    assert docs[..i + 1][..i] == docs[..i];
  }

  /** A failed document ends the run with its error. */
  lemma {:induction false} CollectErrorStops(docs: seq<Result<seq<Row>, ParseError>>, n: nat)
    requires n <= |docs| && CollectRows(docs[..n]).Err?
    ensures CollectRows(docs) == CollectRows(docs[..n])
    decreases |docs| - n
  {
    if n < |docs| {
      var init := docs[..|docs| - 1];
      assert init[..n] == docs[..n];
      CollectErrorStops(init, n);
    } else {
      assert docs[..n] == docs;
    }
  }

  /**
   * Collecting succeeds exactly when every document parsed, and the collected rows are then the
   * rows of the documents.
   */
  lemma {:induction false} CollectRowsMembers(docs: seq<Result<seq<Row>, ParseError>>)
    ensures CollectRows(docs).Ok? <==> forall i :: 0 <= i < |docs| ==> docs[i].Ok?
    ensures CollectRows(docs).Ok? ==>
              forall x :: x in CollectRows(docs).value <==>
                exists i :: 0 <= i < |docs| && x in docs[i].value
  {
    if |docs| > 0 {
      var n := |docs| - 1;
      var init := docs[..n];
      CollectRowsMembers(init);
      assert forall i :: 0 <= i < n ==> init[i] == docs[i];
      if CollectRows(docs).Ok? {
        var rows := CollectRows(init).value;
        forall x ensures x in CollectRows(docs).value <==> exists i :: 0 <= i < |docs| && x in docs[i].value
        {
          if exists i :: 0 <= i < |docs| && x in docs[i].value {
            var i :| 0 <= i < |docs| && x in docs[i].value;
            if i < n {
              assert x in init[i].value;
            }
          }
        }
      }
    }
  }

  /**
   * The spreadsheet of a successful run: chronological, only rows of the analysed year, no two
   * equal rows, every row of that year from any document present, each categorised under a
   * transaction heading and stamped with the account name of the output path.
   */
  lemma {:induction false} ParseStatementsSpec(texts: seq<string>, yearToAnalyze: int, saveToFpath: string)
    requires ParseStatements(texts, yearToAnalyze, saveToFpath).Ok?
    ensures var out := ParseStatements(texts, yearToAnalyze, saveToFpath).value;
            var body := Body(out);
            && SortedByDate(body)
            && (forall k :: 0 <= k < |out| ==> out[k].row.date.year == yearToAnalyze)
            && (forall i, j :: 0 <= i < j < |out| ==> out[i] != out[j])
            && (forall x :: x in body <==>
                  (x.date.year == yearToAnalyze &&
                   exists i :: 0 <= i < |texts| && DocumentRows(texts[i], yearToAnalyze).Ok? &&
                     x in DocumentRows(texts[i], yearToAnalyze).value))
            && (forall k :: 0 <= k < |out| ==> TransactionCategory(out[k].row))
            && (forall k :: 0 <= k < |out| ==> out[k].account == GetFnameFromFpath(saveToFpath))
  {
    var docs := DocumentResults(texts, yearToAnalyze);
    var rows := CollectRows(docs).value;
    CollectRowsMembers(docs);
    BuildLedgerSpec(rows, yearToAnalyze, saveToFpath);
    var out := ParseStatements(texts, yearToAnalyze, saveToFpath).value;
    var body := Body(out);
    forall k | 0 <= k < |out| ensures TransactionCategory(out[k].row) {
      assert body[k] in body;
      var i :| 0 <= i < |docs| && body[k] in docs[i].value;
      DocumentRowCategories(texts[i], yearToAnalyze);
      var docRows := docs[i].value;
      var j :| 0 <= j < |docRows| && docRows[j] == body[k];
    }
  }

  /** The collected rows are empty exactly when every document yields no row. */
  lemma {:induction false} CollectNoRows(docs: seq<Result<seq<Row>, ParseError>>)
    requires CollectRows(docs).Ok?
    ensures CollectRows(docs).value == [] <==> forall i :: 0 <= i < |docs| ==> docs[i] == Ok([])
  {
    if |docs| > 0 {
      var init := docs[..|docs| - 1];
      CollectNoRows(init);
      assert forall i :: 0 <= i < |init| ==> init[i] == docs[i];
    }
  }

  /**
   * When every document parses, the run fails exactly when no document yields a row, and then
   * with NoRows.
   */
  lemma {:induction false} NoRowsWhenEmpty(texts: seq<string>, yearToAnalyze: int, saveToFpath: string)
    requires forall i :: 0 <= i < |texts| ==> DocumentRows(texts[i], yearToAnalyze).Ok?
    ensures ParseStatements(texts, yearToAnalyze, saveToFpath).Err? <==>
              forall i :: 0 <= i < |texts| ==> DocumentRows(texts[i], yearToAnalyze) == Ok([])
    ensures ParseStatements(texts, yearToAnalyze, saveToFpath).Err? ==>
              ParseStatements(texts, yearToAnalyze, saveToFpath) == Err(NoRows)
  {
    var docs := DocumentResults(texts, yearToAnalyze);
    CollectRowsMembers(docs);
    CollectNoRows(docs);
  }
}
