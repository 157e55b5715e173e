/**
 * The row-to-record logic of `Site._process_html`: each row of the results
 * table must unpack into exactly four cells (date, docket, caption, link),
 * and the link cell must hold an `input` element whose `name` is the
 * opinion's path on the court's host.
 */
module Listing {
  import opened Wrappers

  /** The host that relative opinion paths are joined against. */
  const Host := "https://www.wicourts.gov"
  /** The number of cells `date, docket, caption, link = row.xpath("./td")` unpacks. */
  const CellsPerRow := 4

  /** An `input` element; `name` is `None` when it has no `name` attribute. */
  datatype Input = Input(name: Option<string>)

  /** A `td` element: its `.text` (`None` when empty) and its `input` children. */
  datatype Cell = Cell(text: Option<string>, inputs: seq<Input>)

  type Row = seq<Cell>

  /** One entry of `cases`. */
  datatype CaseRecord = CaseRecord(date: Option<string>, name: Option<string>, url: string, docket: Option<string>)

  /**
   * The exceptions a row raises: `ValueError` when it does not unpack into
   * four cells, `IndexError` when the link cell has no `input`.
   */
  datatype RowError = WrongCellCount(found: nat) | MissingInput

  /** The error and the index of the row that raised it. */
  datatype RowFailure = RowFailure(index: nat, error: RowError)

  /** `urljoin`, which this model does not look inside. */
  type Joiner = (string, Option<string>) -> string

  /** The record one row yields, or the exception it raises. */
  function RowRecord(row: Row, join: Joiner): (r: Result<CaseRecord, RowError>)
    ensures r.Ok? <==> |row| == CellsPerRow && row[3].inputs != []
    ensures r == Err(WrongCellCount(|row|)) <==> |row| != CellsPerRow
    ensures |row| == CellsPerRow && row[3].inputs == [] ==> r == Err(MissingInput)
    ensures r.Ok? ==>
              && r.value.date == row[0].text && r.value.docket == row[1].text
              && r.value.name == row[2].text && r.value.url == join(Host, row[3].inputs[0].name)
  {
    if |row| != CellsPerRow then Err(WrongCellCount(|row|))
    else if row[3].inputs == [] then Err(MissingInput)
    else Ok(CaseRecord(row[0].text, row[2].text, join(Host, row[3].inputs[0].name), row[1].text))
  }

  /** What processing a list of rows leaves behind: the records appended and the failure, if any. */
  datatype Outcome = Outcome(records: seq<CaseRecord>, failure: Option<RowFailure>)

  /**
   * The rows processed in order until one raises: every record comes from
   * the row at its own index, and processing stops at the first row that
   * raises and at no other.
   */
  function ProcessRows(rows: seq<Row>, join: Joiner): (out: Outcome)
    ensures |out.records| <= |rows|
    ensures forall i :: 0 <= i < |out.records| ==> RowRecord(rows[i], join) == Ok(out.records[i])
    ensures out.failure.None? ==> |out.records| == |rows|
    ensures out.failure.Some? ==>
              && out.failure.value.index == |out.records| < |rows|
              && RowRecord(rows[|out.records|], join) == Err(out.failure.value.error)
  {
    if rows == [] then Outcome([], None)
    else
      var before := ProcessRows(rows[..|rows| - 1], join);
      if before.failure.Some? then before
      else
        match RowRecord(rows[|rows| - 1], join)
        case Ok(rec) => Outcome(before.records + [rec], None)
        case Err(e) => Outcome(before.records, Some(RowFailure(|rows| - 1, e)))
  }

  /** Rows that all yield records are turned into exactly one record each, in order. */
  lemma {:induction false} AllRowsWellFormed(rows: seq<Row>, join: Joiner)
    requires forall i :: 0 <= i < |rows| ==> RowRecord(rows[i], join).Ok?
    ensures ProcessRows(rows, join).failure == None
    ensures |ProcessRows(rows, join).records| == |rows|
  {
  }

  /** The first row that raises is the one reported, and the rows before it keep their records. */
  lemma FirstBadRow(rows: seq<Row>, join: Joiner, k: nat)
    requires k < |rows| && RowRecord(rows[k], join).Err?
    requires forall i :: 0 <= i < k ==> RowRecord(rows[i], join).Ok?
    ensures ProcessRows(rows, join).failure == Some(RowFailure(k, RowRecord(rows[k], join).error))
    ensures |ProcessRows(rows, join).records| == k
  {
  }

  /** The properties `ProcessRows` ensures, stated of any candidate outcome. */
  predicate IsOutcomeOf(rows: seq<Row>, join: Joiner, out: Outcome) {
    && |out.records| <= |rows|
    && (forall i :: 0 <= i < |out.records| ==> RowRecord(rows[i], join) == Ok(out.records[i]))
    && (out.failure.None? ==> |out.records| == |rows|)
    && (out.failure.Some? ==>
          && out.failure.value.index == |out.records| < |rows|
          && RowRecord(rows[|out.records|], join) == Err(out.failure.value.error))
  }

  /** Those properties leave exactly one outcome: the one `ProcessRows` computes. */
  lemma OutcomeUnique(rows: seq<Row>, join: Joiner, out: Outcome)
    requires IsOutcomeOf(rows, join, out)
    ensures out == ProcessRows(rows, join)
  {
  }
}
