/** What the page does with the grid's selection: the tickers of the ticked rows, and whether
    the report download is offered. */
module Actions {
  import opened Wrappers

  /** One entry of the grid's `selected_rows`: a record of column values, or anything else. */
  datatype GridRow = Record(fields: map<string, Option<string>>) | NotRecord

  /** The `selected_rows` entry of the grid response: absent, a list, or some other value
      (a data frame or `None`, as other versions of the grid component return). */
  datatype GridSelection = NoSelectionKey | RowList(rows: seq<GridRow>) | NotAList

  predicate AllRecords(rows: seq<GridRow>)
  {
    forall i :: 0 <= i < |rows| ==> rows[i].Record?
  }

  /** `row.get("ticker", "")`. */
  function TickerOf(row: GridRow): Option<string>
    requires row.Record?
  {
    if "ticker" in row.fields then row.fields["ticker"] else Some("")
  }

  function Tickers(rows: seq<GridRow>): (tickers: seq<Option<string>>)
    requires AllRecords(rows)
    ensures |tickers| == |rows|
    ensures forall i :: 0 <= i < |rows| ==> tickers[i] == TickerOf(rows[i])
    decreases |rows|
  {
    if |rows| == 0 then [] else [TickerOf(rows[0])] + Tickers(rows[1..])
  }

  /** The selected tickers: one per selected row when the selection is a list of records
      (a missing key reads as the empty list), and none otherwise. */
  function SelectedTickers(sel: GridSelection): (tickers: seq<Option<string>>)
    ensures sel.RowList? && AllRecords(sel.rows) ==>
      |tickers| == |sel.rows| && forall i :: 0 <= i < |sel.rows| ==> tickers[i] == TickerOf(sel.rows[i])
    ensures !(sel.RowList? && AllRecords(sel.rows)) ==> tickers == []
  {
    match sel
    case NoSelectionKey => []
    case RowList(rows) => if AllRecords(rows) then Tickers(rows) else []
    case NotAList => []
  }

  /** The download button is shown iff some ticker is selected and the report file exists. */
  predicate DownloadOffered(tickers: seq<Option<string>>, reportExists: bool)
  {
    |tickers| > 0 && reportExists
  }

  /** In terms of the grid: the download is offered exactly when the report exists and the
      selection is a non-empty list made only of records, whatever tickers they carry. */
  lemma DownloadGate(sel: GridSelection, reportExists: bool)
    ensures DownloadOffered(SelectedTickers(sel), reportExists) <==>
      reportExists && sel.RowList? && |sel.rows| > 0 && AllRecords(sel.rows)
  {
  }

  /** A row without a "ticker" field still counts as a selection: it contributes "". */
  lemma RecordWithoutTickerCounts(reportExists: bool)
    requires reportExists
    ensures SelectedTickers(RowList([Record(map[])])) == [Some("")]
    ensures DownloadOffered(SelectedTickers(RowList([Record(map[])])), reportExists)
  {
  }
}
