# PNC statement parser, modelled in Dafny

This project models `parse_pnc_statement_pdf` and its two helpers from `pnc_statement_parser.py`. The parser reads the text of PNC "virtual wallet" monthly statements and turns it into one spreadsheet of transactions for a year. For each document the parser:

1. splits the text into lines at `\r`, `\n` and form feed;
2. counts each line's leading plus trailing whitespace;
3. flags the lines whose count has a percentile rank of at least 90 and is more than three times the median ("starts in column 1");
4. drops empty lines, lines starting with a break character and lines mentioning "page" in any case;
5. glues a line indented by 19 spaces onto the line above, without consuming it;
6. cleans every kept line with `rm_custom_chars`;
7. finds the statement period on the first line containing "For the period";
8. follows the eight section headings; the last heading a line starts with becomes the section;
9. turns every line of a transaction section that starts with `dd/dd` into a row.

A row is the line with nine spaces and the heading appended, split on double spaces:

- The first column gives the month and day.
- The year is the analysed year when the period lies within one year. Otherwise month 1 takes the period's end year and month 12 its start year.
- The last column that `float()` accepts is the amount.
- A last column that is not a number is the category.
- The other columns are cleaned of four blocklist patterns, stripped and joined with single spaces to form the description.

The rows of all documents are concatenated. They are then sorted by date, kept only when their year is the analysed year, and de-duplicated. Finally every row is stamped with the account name: the last `/`-segment of the output path, cut at its first `.`.

Modules, one file each:

- `Wrappers`: Option, Result and the parse errors.
- `TextOps`: the Python string operations used (strip, find, split, join).
- `PathNames`: `get_fname_from_fpath`.
- `CustomChars`: `rm_custom_chars`.
- `Layout`: the line split and the column-1 classifier.
- `LinePrep`: the `new_lines` loop.
- `Dates`: dates, the period line and the year rule.
- `Tokens`: `int()`, `float()`, the blocklist and row assembly.
- `Sections`: the period and section scan.
- `Ledger`: the final sort, filter, de-duplication and stamp.
- `Statement`: the whole function over a sequence of document texts.

Every crash of the Python code on malformed input is an `Err` value naming the failure:

| Error | Python crash it models |
|---|---|
| `PeriodNotFound` | the period regex finds nothing, and slicing `None` raises |
| `InvalidPeriodDate` | `strptime` rejects a period date |
| `MalformedRowDate` | `int()` or indexing fails on the date column |
| `InvalidRowDate` | `datetime()` rejects the date |
| `AmbiguousYear` | unbound `date_year` |
| `NoRows` | no document, so `pd.concat` has nothing to concatenate (line 187), or no row in any document, so the frame has no `date` column to sort by (line 188) |

Two behaviours of the code worth knowing:

- **Headings:** the headings are matched in title case, including "Banking/Debit Card Withdrawals and Purchases", without lowercasing the line.
- **No rows:** with no document, or with no row in any document, the run fails with `NoRows` (lines 187-188) instead of writing an empty spreadsheet.

## Model

| member | source | states |
|---|---|---|
| PathNames.GetFnameFromFpath | pnc_statement_parser.py:19-20 | the account name contains neither '/' nor '.' |
| PathNames.FnameOfPath | pnc_statement_parser.py:19-20 | round trip: the account name of `dir/name.ext` is `name` when `name` holds no '/' or '.' and `ext` no '/' |
| PathNames.LastSegment | pnc_statement_parser.py:20 | the last '/'-segment of `dir + "/" + y` is `y` when `y` holds no '/' |
| PathNames.FirstPiece | pnc_statement_parser.py:20 | the first '.'-piece of `name.ext` is `name` when `name` holds no '.' |
| CustomChars.RmCustomChars | pnc_statement_parser.py:23-32 | the cleaned line holds no ',' and no '$' and has no leading or trailing whitespace |
| CustomChars.RmCustomCharsCases | pnc_statement_parser.py:23-32 | unmarked lines: the strip of the line with commas dropped and '$' turned into spaces. Marked lines (flagged and starting with three spaces): '_' followed by the cleaned rest with only its trailing whitespace removed |
| CustomChars.MarkedLineStartsWithUnderscore | pnc_statement_parser.py:26-30 | a marked line's cleaned form starts with '_' |
| CustomChars.RemoveCommasAppend | pnc_statement_parser.py:32 | removing commas distributes over concatenation |
| CustomChars.DollarToSpaceAppend | pnc_statement_parser.py:32 | replacing '$' distributes over concatenation |
| TextOps.StripSpec | pnc_statement_parser.py:32 | strip removes a whitespace prefix and suffix and leaves no whitespace at either end |
| TextOps.StripIdempotent | pnc_statement_parser.py:100 | stripping twice is stripping once |
| TextOps.JoinSplitOn | pnc_statement_parser.py:149 | round trip: joining the split pieces with the separator gives the string back |
| TextOps.SplitOnPiecesFree | pnc_statement_parser.py:149 | no piece of a split contains the separator |
| TextOps.SplitOnConcat | pnc_statement_parser.py:148-149 | splitting `a + sep + b` is splitting `a` then `b` when no separator straddles the end of `a` |
| Layout.SplitLines | pnc_statement_parser.py:99 | one piece per break character plus one, and no piece contains a break character |
| Layout.JoinSplitLines | pnc_statement_parser.py:99 | round trip: joining the lines with '\n' gives the text with every break written as '\n' |
| Layout.CountWhitespace | pnc_statement_parser.py:100 | the counts are the whitespace count of each line |
| Layout.Percentiles | pnc_statement_parser.py:101 | each entry is the 'rank'-kind percentile of that line's count among all counts |
| Layout.FlagColumnOne | pnc_statement_parser.py:100-104 | an index is flagged exactly when its rank is at least 90 and its count exceeds three medians |
| Layout.SortNatsSpec | pnc_statement_parser.py:102 | the counts the median is taken from are sorted and a permutation of the counts |
| Layout.PercentileThreshold | pnc_statement_parser.py:101-103 | a count's rank is at least 90 exactly when 5 * (below + at-most + 1) >= 9 * n |
| Layout.MedianTestInt | pnc_statement_parser.py:102-103 | count > 3 * median exactly when 2 * count > 3 * (sum of the middle counts) |
| Layout.AllEqualNoneFlagged | pnc_statement_parser.py:100-104 | when every line has the same count no line is flagged |
| Layout.ScaleInvariantFlags | pnc_statement_parser.py:101-104 | multiplying every count by the same positive factor flags the same lines |
| LinePrep.KeptIndicesSpec | pnc_statement_parser.py:107-108 | the kept indices increase and are exactly the non-empty lines that do not start with a break and do not mention "page" |
| LinePrep.PrepareLines | pnc_statement_parser.py:106-115 | the loop builds exactly `PreparedLines`: one cleaned line per kept line, in order |
| LinePrep.PreparedUpToKept | pnc_statement_parser.py:106-115 | there are as many prepared lines as kept lines, and the k-th is the k-th kept line joined with its continuation and cleaned under its flag |
| LinePrep.PreparedLinesClean | pnc_statement_parser.py:115 | every prepared line is stripped and free of ',' and '$' |
| LinePrep.ContinuationKeptTwice | pnc_statement_parser.py:112-115 | a continuation line is glued onto the line above and is still kept as a line of its own |
| Dates.MakeDate | pnc_statement_parser.py:157-163 | Ok exactly for an existing date with year 1..9999, with those fields. Otherwise InvalidRowDate |
| Dates.DaysInMonth | pnc_statement_parser.py:157 | 28 to 31 days: 28 exactly for February of a common year, 29 exactly for February of a leap year, 30 exactly for April, June, September and November, 31 for the other months |
| Dates.NotAfterTotal | pnc_statement_parser.py:188 | the date order is total and antisymmetric |
| Dates.NotAfterTransitive | pnc_statement_parser.py:188 | the date order is transitive |
| Dates.FindPeriod | pnc_statement_parser.py:131 | the leftmost position where the period pattern matches, or none |
| Dates.PeriodSplit | pnc_statement_parser.py:133-134 | splitting a matched period on " to " gives its two dates |
| Dates.ParsePeriodLine | pnc_statement_parser.py:130-134 | fails with PeriodNotFound exactly when the line has no period, otherwise only with InvalidPeriodDate. It succeeds exactly when both dates of the leftmost period parse, and then the start and end are those two dates |
| Dates.ParseFormatMdy | pnc_statement_parser.py:133-134 | round trip: parsing a formatted valid date gives it back |
| Dates.FindPeriodAfter | pnc_statement_parser.py:131 | a period preceded only by non-digit characters is found right after them |
| Dates.ParsePeriodOfFormatted | pnc_statement_parser.py:130-134 | round trip: the period parsed from a line holding a formatted period is that period |
| Dates.ResolveYear | pnc_statement_parser.py:156-163 | same-year period: the analysed year. Otherwise month 1 gives the end year, month 12 the start year, and any other month fails with AmbiguousYear |
| Dates.ResolvedDateInPeriod | pnc_statement_parser.py:156-163 | in a December to January period, a date of the period gets a year that places it inside the period |
| Tokens.PyIntDigits | pnc_statement_parser.py:154-155 | `int()` of a non-empty digit string is its decimal value |
| Tokens.PyFloatStart | pnc_statement_parser.py:166 | a string `float()` accepts starts, once stripped, with a digit, a sign or a point |
| Tokens.PyFloatDecimal | pnc_statement_parser.py:166 | `float("x.y")` for digit strings is x plus y scaled by its length |
| Tokens.PyFloatAmount | pnc_statement_parser.py:166 | `float("d.cc")` is dollars plus cents / 100 |
| Tokens.RemoveAllUnchanged | pnc_statement_parser.py:176 | `re.sub` leaves a value unchanged exactly when the pattern matches nowhere |
| Tokens.CleanToken | pnc_statement_parser.py:175-176 | a cleaned column is stripped and no longer than the column |
| Tokens.CleanWithUnchanged | pnc_statement_parser.py:175-176 | a stripped column that no blocklist pattern matches is left as it is |
| Tokens.CleanColumn | pnc_statement_parser.py:175-176 | the blocklist loop computes the cleaned column |
| Tokens.RowDate | pnc_statement_parser.py:153-163 | a row date that is built is a valid date; a failure is MalformedRowDate, InvalidRowDate or AmbiguousYear |
| Tokens.RowDateOfText | pnc_statement_parser.py:153-163 | for an `mm/dd` column: Ok exactly when the year resolves and the date exists, and then it is that month and day in the resolved year. Otherwise the error is the year rule's AmbiguousYear, or InvalidRowDate for a date that does not exist |
| Tokens.SplitMonthDay | pnc_statement_parser.py:154-155 | splitting `mm/dd` on '/' gives the month and the day |
| Tokens.LastSome | pnc_statement_parser.py:165-167 | no amount exactly when no column parses as a number |
| Tokens.LastSomeIsLast | pnc_statement_parser.py:165-167 | the amount is the value of a parsable column after which no column parses |
| Tokens.DescToken | pnc_statement_parser.py:175-179 | a column adds at most one description token, non-empty and stripped |
| Tokens.DescTokensStripped | pnc_statement_parser.py:178-181 | every description token is stripped |
| Tokens.StripEachStripped | pnc_statement_parser.py:181 | stripping stripped tokens changes nothing |
| Tokens.CategoryOf | pnc_statement_parser.py:171-173 | a category exactly when there are at least two columns and the last does not parse as a number |
| Tokens.TokensRow | pnc_statement_parser.py:150-182 | a row fails exactly when its date fails, with the date's error, and otherwise carries that date |
| Tokens.AssembleRow | pnc_statement_parser.py:149-182 | the column loop builds exactly `TokensRow` of the columns |
| Tokens.ReadColumns | pnc_statement_parser.py:152-181 | the amount is the last parsable column, the description joins the cleaned middle columns and the category is the non-numeric last column |
| Tokens.TakeColumn | pnc_statement_parser.py:165-179 | one column either becomes the amount, the category or a description token, keeping the three in step with their definitions |
| Tokens.ColumnAmountStep | pnc_statement_parser.py:165-167 | a parsable column replaces the amount, any other leaves it |
| Tokens.ColumnDescriptionStep | pnc_statement_parser.py:175-179 | a column appends its description token |
| Tokens.SplitRowLine | pnc_statement_parser.py:148-149 | the nine-space gap and heading add exactly the columns "", "", "", " " + heading after the line's own columns |
| Tokens.GapTailAmount | pnc_statement_parser.py:165-167 | the gap and heading columns do not change the amount |
| Tokens.GapTailDescription | pnc_statement_parser.py:175-181 | the gap columns add no description token |
| Tokens.GapTailCategory | pnc_statement_parser.py:171-173 | the category of a row line is the heading |
| Tokens.RowFields | pnc_statement_parser.py:148-182 | the row of a line fails exactly when its date fails. Otherwise its category is the heading, its amount the last parsable column of the line and its description the cleaned text columns |
| Sections.TransactionalAreWords | pnc_statement_parser.py:117-125 | every transaction heading is a non-numeric word run without double spaces |
| Sections.LastHeading | pnc_statement_parser.py:141-143 | the section is kept or becomes a heading the line starts with; if the line starts with any heading the section becomes one. So the section changes only at a line that starts with the new heading |
| Sections.FollowHeadings | pnc_statement_parser.py:141-143 | the heading loop computes `LastHeading` |
| Sections.RowOfFields | pnc_statement_parser.py:145-182 | the row of a cleaned line in a transaction section has the heading as category, the last parsable column as amount and the cleaned text columns as description. It fails exactly when its date fails |
| Sections.ScanLine | pnc_statement_parser.py:129-182 | before the period: lines without the marker change nothing, and the marker line sets the period or fails with the period line's error. After it: the section follows the headings, and a dated line of a transaction section appends its row or fails with the row's error |
| Sections.Scan | pnc_statement_parser.py:126-182 | at most one row per line; no row and no section before the period; the section is always a heading of the table |
| Sections.ScanSections | pnc_statement_parser.py:126-182 | the lines loop computes `StatementRows` |
| Sections.ScanErrorStops | pnc_statement_parser.py:129-182 | a failing line fails the whole document with its error |
| Sections.MarkedLineInert | pnc_statement_parser.py:26-30 | a marked line's cleaned form starts with neither a heading nor a month/day, so once the period is known it leaves the scan state as it was |
| Sections.ScanWithoutMarker | pnc_statement_parser.py:138-139 | lines before the period marker change nothing |
| Sections.ScanThroughFirstMarker | pnc_statement_parser.py:130-139 | up to the first marker line there is no row and no section, and the period is the one that line holds |
| Sections.ScanKeepsPeriod | pnc_statement_parser.py:128-136 | once found the period never changes, and earlier rows stay in front of later ones |
| Sections.ScanLineRow | pnc_statement_parser.py:145-182 | the row a line adds has the section heading as category, its date from the first column, the last parsable column as amount and the cleaned text as description |
| Sections.ScanLineCategories | pnc_statement_parser.py:145-182 | one line keeps every row categorised under a transaction heading |
| Sections.ScanRowsCategories | pnc_statement_parser.py:145-182 | every row of a scan over cleaned lines is categorised under a transaction heading |
| Ledger.InsertByDate | pnc_statement_parser.py:188 | inserting adds exactly one copy of the row |
| Ledger.InsertByDateMembers | pnc_statement_parser.py:188 | after inserting, the rows are the inserted row and the old rows |
| Ledger.InsertByDateSorted | pnc_statement_parser.py:188 | inserting into chronological rows keeps them chronological |
| Ledger.SortByDate | pnc_statement_parser.py:188 | sorting is a permutation |
| Ledger.SortByDateSorted | pnc_statement_parser.py:188 | sorted rows are chronological |
| Ledger.InYear | pnc_statement_parser.py:189-190 | every kept row is a row of the analysed year, and every row of that year is kept |
| Ledger.InYearSorted | pnc_statement_parser.py:189-190 | the year mask keeps chronological order |
| Ledger.DropDuplicates | pnc_statement_parser.py:191 | no two rows are equal, and the same rows remain |
| Ledger.DropDuplicatesSorted | pnc_statement_parser.py:191 | dropping duplicates keeps chronological order |
| Ledger.Stamp | pnc_statement_parser.py:192 | each row gets the same account |
| Ledger.BuildLedger | pnc_statement_parser.py:187-192 | fails exactly when there is no row, and then with NoRows |
| Ledger.BuildLedgerSpec | pnc_statement_parser.py:187-192 | the result is chronological and holds only rows of the analysed year. No two are equal, and every row of that year is present. All carry the account name of the output path |
| Statement.ParseDocument | pnc_statement_parser.py:99-182 | one document's split, classify, prepare and scan computes `DocumentRows` |
| Statement.DocumentRowCategories | pnc_statement_parser.py:106-182 | every row of a document is categorised under a transaction heading |
| Statement.ParsePncStatementPdf | pnc_statement_parser.py:96-192 | the documents loop and the aggregation compute `ParseStatements` |
| Statement.CollectRowsStep | pnc_statement_parser.py:184-187 | one more document appends its rows, or its failure ends the run |
| Statement.CollectErrorStops | pnc_statement_parser.py:96-185 | a failing document fails the run with its error |
| Statement.CollectRowsMembers | pnc_statement_parser.py:184-187 | collecting succeeds exactly when every document parses, and then holds exactly the rows of the documents |
| Statement.CollectNoRows | pnc_statement_parser.py:184-187 | the collected rows are empty exactly when every document yields none |
| Statement.ParseStatementsSpec | pnc_statement_parser.py:96-192 | the spreadsheet is chronological and holds only rows of the analysed year, no two equal. It holds every such row of every document, each categorised under a transaction heading and stamped with the account name |
| Statement.NoRowsWhenEmpty | pnc_statement_parser.py:184-188 | when every document parses, the run fails exactly when no document yields a row, and then with NoRows |

## Left out

- Reading the folder is not part of this model: `os.listdir`, `textract` and the UTF-8 decode. A run takes the extracted texts as a sequence, in the order the files are listed.
- Writing the spreadsheet (`to_csv`) and the output-folder creation at import time are left out. The result is the sequence of spreadsheet rows.
- `combine_monthly_statements_for_year` and the `__main__` block are not part of this model. They are a separate CSV path and an example invocation.
- Layout.Percentiles: the percentile rank and the median are exact rationals. Newer scipy computes the rank as `(left + right + plus1) * (50.0 / n)` in doubles, which can fall just below 90 where the exact rank is 90: for n = 195 and a sum of 351 it gives 89.99999999999999. A line at exactly rank 90 is then flagged by the model but not by Python, and if it starts with three spaces it gets the '_' marker and yields no row. Older scipy's `(...) * 50.0 / n` form is exact at such n and agrees with the model.
- Tokens.PyFloat: models signs, digits, a decimal point, an exponent and surrounding whitespace, in exact real arithmetic. It leaves out binary rounding, `inf`/`nan`, underscores between digits and non-ASCII digits. Statement amounts are plain `d.cc` texts, for which the exact value is the one meant.
- Tokens.PyInt: accepts an optional sign and ASCII digits. Underscores and non-ASCII digits are left out.
- TextOps.IsDigit: ASCII '0'..'9' only, where Python's `\d` matches any Unicode decimal digit. So Sections.IsRowLine (line 147), Dates.FindPeriod (line 131) and Tokens.MatchLen (the blocklist patterns, lines 90 and 93) do not match text written with non-ASCII digits, which Python's patterns match: such a line yields no row, finds no period, or keeps a blocklisted phrase in its description.
- LinePrep.LowerAscii: lowers only 'A'..'Z'. No other character lowers to one of the letters of "page", so the "page" test is unaffected.
- Ledger.SortByDate: a stable insertion sort. pandas' default quicksort does not fix the order of rows with the same date, so the model states only that rows come in chronological order and as a permutation.
- Dates.ResolveYear: in a two-year period, a month other than 1 or 12 fails with AmbiguousYear. Python instead reuses a `date_year` left over from an earlier row of the same call, and fails only when none was set yet.
- Sections.ScanLine: a 'For the period' line without a date range crashes the Python code on `None`. The model fails with PeriodNotFound.
- Statement.NoRowsWhenEmpty: stated only for runs in which every document parses, because a failing document ends the run with its own error first.
- A row without an amount or a category holds `None` where the data frame would hold NaN.
