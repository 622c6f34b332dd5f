/**
 * The climate table as the core sees it once the file reader is done: a
 * set of column names and a sequence of rows. A row carries the station
 * name (`cidade`), the `year`, the date in column `index`, and the numeric
 * measurement cells (`tempMax`, `tempMed`, `tempMin`, `HumidadeMed`,
 * `umidade`, `Lat`, `Long`, ...) by column name. None stands for NaN/NaT.
 */
module Tables {
  import opened Wrappers

  type Month = m: int | 1 <= m <= 12 witness 1

  datatype Date = Date(year: int, month: Month, day: int)

  datatype Row = Row(
    cidade: Option<string>,
    year: Option<int>,
    index: Option<Date>,
    cells: map<string, real>)

  datatype Table = Table(columns: set<string>, rows: seq<Row>)

  /** `pd.DataFrame()`: no columns, no rows. */
  const EmptyTable := Table({}, [])

  /** `df.empty`: one of the two axes has length zero. */
  predicate IsEmpty(t: Table)
    ensures IsEmpty(t) <==> |t.rows| * |t.columns| == 0
  {
    t.rows == [] || t.columns == {}
  }

  /** A measurement cell; None where the row holds NaN. */
  function Cell(r: Row, column: string): Option<real>
  {
    if column in r.cells then Some(r.cells[column]) else None
  }
}
