/** The company table as loaded from `companies.csv`: one record per row, every cell nullable,
    and the required-column check that decides whether the table is usable at all. */
module Companies {
  import opened Wrappers
  import opened Seqs

  /** One row of `companies.csv`; a cell pandas reads as NaN is `None`. */
  datatype Row = Row(
    ticker: Option<string>,
    name: Option<string>,
    description: Option<string>,
    sector: Option<string>,
    industry: Option<string>,
    subIndustry: Option<string>,
    tag: Option<string>)

  type Table = seq<Row>

  /** The three levels of the classification hierarchy, coarsest first. */
  datatype Level = Sector | Industry | SubIndustry

  function Cell(row: Row, level: Level): Option<string>
  {
    match level
    case Sector => row.sector
    case Industry => row.industry
    case SubIndustry => row.subIndustry
  }

  /** The mask `df[level] == v`: exact equality, and a missing cell never equals anything. */
  function HasValue(level: Level, v: string): Row -> bool
  {
    row => Cell(row, level) == Some(v)
  }

  /** Column names the browser relies on, in the order the error message lists them. */
  const RequiredColumns: seq<string> :=
    ["ticker", "company name", "description", "sector", "industry", "sub-industry", "tag"]

  function AbsentFrom(header: seq<string>): string -> bool
  {
    col => col !in header
  }

  /** The required columns the header lacks, in the order of `RequiredColumns`. */
  function MissingColumns(header: seq<string>): (missing: seq<string>)
    ensures IsSubsequence(missing, RequiredColumns)
    ensures forall col :: col in missing <==> col in RequiredColumns && col !in header
    ensures |missing| == 0 <==> forall col :: col in RequiredColumns ==> col in header
  {
    Filter(RequiredColumns, AbsentFrom(header))
  }

  datatype LoadError = MissingRequiredColumns(columns: seq<string>)

  /** `load_company_data` after the CSV has been parsed into `header` and `rows`: the table is
      accepted as read when no required column is missing, and rejected otherwise. */
  function LoadCompanyData(header: seq<string>, rows: Table): (r: Result<Table, LoadError>)
    ensures r.Success? <==> forall col :: col in RequiredColumns ==> col in header
    ensures r.Success? ==> r.value == rows
    ensures r.Failure? ==> |r.error.columns| > 0
    ensures r.Failure? ==> forall col :: col in r.error.columns <==> col in RequiredColumns && col !in header
    ensures r.Failure? ==> IsSubsequence(r.error.columns, RequiredColumns)
  {
    var missing := MissingColumns(header);
    if |missing| > 0 then Failure(MissingRequiredColumns(missing)) else Success(rows)
  }
}
