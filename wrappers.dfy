/** Failure-carrying results shared by every stage of the statement parser. */
module Wrappers {

  datatype Option<T> = None | Some(value: T)

  datatype Result<T, E> = Ok(value: T) | Err(error: E)

  /** The ways in which parsing a folder of statements stops with an exception. */
  datatype ParseError =
    | PeriodNotFound       // 'For the period' line without a date range: the regex search returns None
    | InvalidPeriodDate    // strptime rejects one of the two period dates
    | MalformedRowDate     // int() or indexing fails on the date token of a row
    | InvalidRowDate       // datetime() rejects the row's year, month and day
    | AmbiguousYear        // period spans two years and the row's month is neither 1 nor 12
    | NoRows               // no document (concat of nothing) or no row in any document (no 'date' column to sort)
}
