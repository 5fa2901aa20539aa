/** The workbook as the importer reads it, and the records, keys and
    messages the importer produces. */
module Lci {
  import opened Values

  /** A column label: a header text, or a position when a sheet is read
      without a header row. */
  datatype Label = Named(name: string) | Position(index: nat)

  /** One row of a sheet: the text of each non-blank cell by column label.
      A blank cell (pandas NaN) is absent. */
  type Row = map<Label, string>

  /** A sheet as pandas reads it: its column labels and its rows. */
  datatype Table = Table(columns: set<Label>, rows: seq<Row>)

  /** An opened workbook: each sheet by name, as read by the importer's own
      `read_excel` call for it (the metadata sheet without a header row, the
      others with one). */
  datatype Workbook = Workbook(sheets: map<string, Table>)

  /** Why a parse raised: a missing column (`KeyError`), a cell `float()`
      cannot convert (`ValueError`), or a file that cannot be opened. */
  datatype Failure = KeyError(column: Label) | ValueError(text: string) | Unreadable

  /** One unit process (a row of 'Process Activities'). */
  datatype Activity = Activity(
    code: string,
    name: string,
    unit: string,
    location: string,
    referenceProduction: Float)

  /** One flow of an activity (a row of 'Exchanges'); `kind` is the
      stripped, lower-cased exchange type. */
  datatype Exchange = Exchange(
    activityCode: string,
    kind: string,
    flowName: string,
    amount: Float,
    unit: string,
    category: Option<string>,
    uncertainty: Option<Float>)

  /** A Brightway node key: `(database name, code)`. */
  datatype Key = Key(database: string, code: string)

  /** The errors and warnings the importer records, by what they report
      rather than by their formatted text. */
  datatype Message =
    | MissingSheet(sheet: string)
    | ParseFailure(cause: Failure)
    | OrphanCodes(codes: set<string>)
    | NoProduction(activityName: string)
    | NegativeAmount(activityCode: string, flowName: string)
    | SuspiciousMassBalance(activityName: string, inputMass: real, outputMass: real, ratio: real)
    | BiosphereUnavailable
    | UnlinkedFlows(flowNames: seq<string>)

  /** `row[col]` on a pandas row: `KeyError` when the sheet has no such
      column, otherwise the cell, `None` when it is blank. */
  function Cell(columns: set<Label>, row: Row, col: Label): (r: Result<Option<string>, Failure>)
    ensures r.Err? <==> col !in columns
    ensures r.Ok? ==> (r.value.Some? <==> col in row)
    ensures r.Ok? && col in row ==> r.value == Some(row[col])
  {
    if col !in columns then Err(KeyError(col))
    else if col in row then Ok(Some(row[col]))
    else Ok(None)
  }

  /** `str(cell)`: a blank cell is the float NaN, whose text is "nan". */
  function Text(cell: Option<string>): string {
    if cell.Some? then cell.value else "nan"
  }

  /** `str(row[col])` for a column the sheet has. */
  function CellText(row: Row, col: Label): string {
    if col in row then row[col] else "nan"
  }

  /** `float(cell)`: a blank cell is NaN; text goes through the conversion
      `toFloat`, which answers `None` where Python raises `ValueError`. */
  function ToFloat(cell: Option<string>, toFloat: string -> Option<Float>): (r: Result<Float, Failure>)
    ensures cell.None? ==> r == Ok(NaN)
    ensures cell.Some? ==> (r.Ok? <==> toFloat(cell.value).Some?)
    ensures cell.Some? && r.Ok? ==> r.value == toFloat(cell.value).value
    ensures r.Err? ==> r.error == ValueError(cell.value)
  {
    if cell.None? then Ok(NaN)
    else if toFloat(cell.value).Some? then Ok(toFloat(cell.value).value)
    else Err(ValueError(cell.value))
  }

  /** `float(row[col])` for a column the sheet has: NaN for a blank cell,
      `None` where Python raises `ValueError`. */
  function CellFloat(row: Row, col: Label, toFloat: string -> Option<Float>): Option<Float> {
    if col in row then toFloat(row[col]) else Some(NaN)
  }
}
