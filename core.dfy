/** Failure-carrying wrappers and the error taxonomy of the load-profile loader. */
module Core {

  datatype Option<+T> = None | Some(value: T)

  datatype Result<+T, +E> = Success(value: T) | Failure(error: E)

  /** Every way a call into the loader can fail: the exceptions `Delmarva` raises. */
  datatype Error =
    | InvalidLdc(ldc: string)           // `assert ldc in self.ldcs`
    | NoValidData                       // no data line survived the header skip
    | InvalidStructure(width: nat)      // first row is neither 26 nor 27 columns wide
    | RaggedRows                        // a later row is wider or narrower than the first
    | NumericParse(column: string)      // `astype('float')` refused a token
    | DateParse                         // `pd.to_datetime(..., format='%m/%d/%Y')` refused a token
    | NoDate                            // the earliest date of a table without rows is `NaT`, which `%Y%m%d` cannot spell
    | NoObjectsToConcatenate            // `pd.concat` of an empty or all-None list
}
