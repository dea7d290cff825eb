/** One pass of the page: load the table, derive the dropdowns from it, filter it, and gate
    the download on the grid's selection. */
module Browser {
  import opened Wrappers
  import opened Seqs
  import opened Text
  import opened Companies
  import opened FilterEngine
  import opened OptionLists
  import opened Actions

  /** What the page shows for a loaded table and a filter selection. */
  datatype View = View(
    sectorOptions: seq<string>,
    industryOptions: seq<string>,
    subIndustryOptions: seq<string>,
    rows: Table)

  /** The dropdown lists come from the full table and the upstream choices; the grid shows the
      filtered table. Every sector and industry of a shown row is offered by its dropdown;
      sub-industries are too, except when the sector is "All" and the industry is not. */
  function Render(t: Table, sel: FilterSelection): (v: View)
    // the grid: the admitted rows, in table order, each as often as in the table
    ensures IsSubsequence(v.rows, t)
    ensures forall row :: row in v.rows <==> row in t && Admits(sel, row)
    ensures forall row :: multiset(v.rows)[row] == if Admits(sel, row) then multiset(t)[row] else 0
    // the dropdowns: "All", then the candidate values in ascending order without repeats
    ensures |v.sectorOptions| >= 1 && v.sectorOptions[0] == All
    ensures StrictlyAscending(v.sectorOptions[1..])
    ensures forall s :: s in v.sectorOptions[1..] <==> exists row :: row in t && row.sector == Some(s)
    ensures |v.industryOptions| >= 1 && v.industryOptions[0] == All
    ensures StrictlyAscending(v.industryOptions[1..])
    ensures forall s :: s in v.industryOptions[1..] <==>
      exists row :: row in t && row.industry == Some(s) && (sel.sector == All || row.sector == Some(sel.sector))
    ensures |v.subIndustryOptions| >= 1 && v.subIndustryOptions[0] == All
    ensures StrictlyAscending(v.subIndustryOptions[1..])
    ensures forall s :: s in v.subIndustryOptions[1..] <==>
      exists row :: row in t && row.subIndustry == Some(s) &&
        (sel.industry == All || (row.industry == Some(sel.industry) && row.sector == Some(sel.sector)))
    // what the grid shows, the dropdowns offer
    ensures forall row :: row in v.rows && row.sector.Some? ==> row.sector.value in v.sectorOptions
    ensures forall row :: row in v.rows && row.industry.Some? ==> row.industry.value in v.industryOptions
    ensures sel.industry == All || sel.sector != All ==>
      forall row :: row in v.rows && row.subIndustry.Some? ==> row.subIndustry.value in v.subIndustryOptions
  {
    GridCounts(t, sel);
    ShownValuesOffered(t, sel);
    View(
      SectorOptions(t),
      IndustryOptions(t, sel.sector),
      SubIndustryOptions(t, sel.sector, sel.industry),
      ApplyFilters(t, sel))
  }

  /** Multiplicities in the grid: an admitted row as often as in the table, any other never. */
  lemma GridCounts(t: Table, sel: FilterSelection)
    ensures forall row ::
      multiset(ApplyFilters(t, sel))[row] == if Admits(sel, row) then multiset(t)[row] else 0
  {
    forall row
      ensures multiset(ApplyFilters(t, sel))[row] == if Admits(sel, row) then multiset(t)[row] else 0
    {
      ApplyFiltersCounts(t, sel, row);
    }
  }

  /** The three "shown values are offered" facts, stated on the whole dropdown lists. */
  lemma ShownValuesOffered(t: Table, sel: FilterSelection)
    ensures forall row :: row in ApplyFilters(t, sel) && row.sector.Some? ==>
      row.sector.value in SectorOptions(t)
    ensures forall row :: row in ApplyFilters(t, sel) && row.industry.Some? ==>
      row.industry.value in IndustryOptions(t, sel.sector)
    ensures sel.industry == All || sel.sector != All ==>
      forall row :: row in ApplyFilters(t, sel) && row.subIndustry.Some? ==>
        row.subIndustry.value in SubIndustryOptions(t, sel.sector, sel.industry)
  {
    ShownSectorsOffered(t, sel);
    forall row | row in ApplyFilters(t, sel) && row.sector.Some?
      ensures row.sector.value in SectorOptions(t)
    {
      assert row.sector.value in SectorOptions(t)[1..];
    }
    ShownIndustriesOffered(t, sel);
    forall row | row in ApplyFilters(t, sel) && row.industry.Some?
      ensures row.industry.value in IndustryOptions(t, sel.sector)
    {
      assert row.industry.value in IndustryOptions(t, sel.sector)[1..];
    }
    if sel.industry == All || sel.sector != All {
      ShownSubIndustriesOffered(t, sel);
      forall row | row in ApplyFilters(t, sel) && row.subIndustry.Some?
        ensures row.subIndustry.value in SubIndustryOptions(t, sel.sector, sel.industry)
      {
        assert row.subIndustry.value in SubIndustryOptions(t, sel.sector, sel.industry)[1..];
      }
    }
  }

  /** The search box never changes what the dropdowns offer, and neither does the
      sub-industry choice: options come from the full table, not the searched one. */
  lemma OptionsIgnoreSearch(t: Table, sel1: FilterSelection, sel2: FilterSelection)
    requires sel1.sector == sel2.sector && sel1.industry == sel2.industry
    ensures Render(t, sel1).sectorOptions == Render(t, sel2).sectorOptions
    ensures Render(t, sel1).industryOptions == Render(t, sel2).industryOptions
    ensures Render(t, sel1).subIndustryOptions == Render(t, sel2).subIndustryOptions
  {
  }

  /** The whole page: an error naming the missing columns, or the browser itself. */
  datatype Page =
    | LoadFailed(missing: seq<string>)
    | Browsing(view: View, tickers: seq<Option<string>>, downloadOffered: bool)

  function ShowPage(header: seq<string>, rows: Table, sel: FilterSelection,
                    grid: GridSelection, reportExists: bool): (p: Page)
    // the error page lists exactly the missing required columns, in the required order
    ensures p.LoadFailed? <==> exists col :: col in RequiredColumns && col !in header
    ensures p.LoadFailed? ==> |p.missing| > 0 && IsSubsequence(p.missing, RequiredColumns)
    ensures p.LoadFailed? ==> forall col :: col in p.missing <==> col in RequiredColumns && col !in header
    // the browser renders the table as read
    ensures p.Browsing? ==> p.view == Render(rows, sel)
    ensures p.Browsing? ==> IsSubsequence(p.view.rows, rows)
    ensures p.Browsing? ==> forall row :: row in p.view.rows <==> row in rows && Admits(sel, row)
    // the tickers of a list of records, one per row in order; none for any other selection
    ensures p.Browsing? && grid.RowList? && AllRecords(grid.rows) ==>
      |p.tickers| == |grid.rows| && forall i :: 0 <= i < |grid.rows| ==> p.tickers[i] == TickerOf(grid.rows[i])
    ensures p.Browsing? && !(grid.RowList? && AllRecords(grid.rows)) ==> p.tickers == []
    // the download is offered for a non-empty list of records when the report exists
    ensures p.Browsing? ==>
      (p.downloadOffered <==> reportExists && grid.RowList? && |grid.rows| > 0 && AllRecords(grid.rows))
  {
    match LoadCompanyData(header, rows)
    case Failure(MissingRequiredColumns(missing)) => LoadFailed(missing)
    case Success(t) =>
      var tickers := SelectedTickers(grid);
      DownloadGate(grid, reportExists);
      Browsing(Render(t, sel), tickers, DownloadOffered(tickers, reportExists))
  }

  /** The sub-industry quirk on a one-row table: with sector "All" and industry "Software"
      the grid shows a row of sub-industry "Apps" that the sub-industry dropdown does not offer. */
  lemma SubIndustryQuirkExample()
    ensures
      var t := [Row(Some("MSFT"), Some("Microsoft"), Some("Software maker"),
                    Some("Tech"), Some("Software"), Some("Apps"), None)];
      var v := Render(t, FilterSelection("", All, "Software", All));
      && v.rows == t
      && v.subIndustryOptions == [All]
  {
    var t := [Row(Some("MSFT"), Some("Microsoft"), Some("Software maker"),
                  Some("Tech"), Some("Software"), Some("Apps"), None)];
    SubIndustryIgnoresWildcardSector(t, "Software");
  }
}
