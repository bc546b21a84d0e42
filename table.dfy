/**
  Cells of a pandas data frame as the pipeline reads them from CSV or builds them
  from records: a cell holds text or is missing (NaN).
*/
module Table {
  datatype Cell = Text(text: string) | Missing

  /** Python truthiness of a cell: an empty string is false, NaN is true. */
  predicate Truthy(c: Cell) {
    c.Missing? || c.text != ""
  }
}
