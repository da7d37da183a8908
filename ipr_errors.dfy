/** The exceptions the IPR code raises, by what they report. */
module IprErrors {

  datatype IprError =
    | CurveNotFound(name: string)    // ValueError: the curve name is not in the table
    | MissingColumn(column: string)  // ValueError: a column a formula needs is absent
    | KeyError(key: string)          // KeyError: a dictionary or DataFrame lookup failed
}
