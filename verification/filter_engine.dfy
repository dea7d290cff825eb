/** The filtered view of the company table: a free-text search on name and ticker, then one
    equality filter per classification level, where the choice "All" is a wildcard. */
module FilterEngine {
  import opened Wrappers
  import opened Seqs
  import opened Text
  import opened Companies

  /** The dropdown sentinel meaning "do not filter on this level". */
  const All: string := "All"

  /** The user's current search text and dropdown choices. */
  datatype FilterSelection = FilterSelection(query: string, sector: string, industry: string, subIndustry: string)

  function Choice(sel: FilterSelection, level: Level): string
  {
    match level
    case Sector => sel.sector
    case Industry => sel.industry
    case SubIndustry => sel.subIndustry
  }

  /** `column.str.contains(query, case=False, na=False)` for one cell. */
  predicate CellContains(cell: Option<string>, query: string)
  {
    cell.Some? && ContainsIgnoringCase(cell.value, query)
  }

  predicate MatchesSearch(row: Row, query: string)
  {
    CellContains(row.name, query) || CellContains(row.ticker, query)
  }

  function SearchMask(query: string): Row -> bool
  {
    row => MatchesSearch(row, query)
  }

  /** Reference meaning of a search hit: after lower-casing both, the query occurs at some
      position of the cell's text; a missing cell has no text to occur in. */
  ghost predicate Mentions(cell: Option<string>, query: string)
  {
    cell.Some? && exists i :: OccursAt(Lower(cell.value), Lower(query), i)
  }

  /** A row survives the search box: the box is empty, or its name or its ticker mentions the query. */
  ghost predicate SearchAdmits(row: Row, query: string)
  {
    query == "" || Mentions(row.name, query) || Mentions(row.ticker, query)
  }

  /** A row survives one level's dropdown: the choice is the wildcard or the cell equals it. */
  ghost predicate LevelAdmits(row: Row, level: Level, choice: string)
  {
    choice == All || Cell(row, level) == Some(choice)
  }

  /** A row appears in the browser's table under `sel`. */
  ghost predicate Admits(sel: FilterSelection, row: Row)
  {
    && SearchAdmits(row, sel.query)
    && LevelAdmits(row, Sector, sel.sector)
    && LevelAdmits(row, Industry, sel.industry)
    && LevelAdmits(row, SubIndustry, sel.subIndustry)
  }

  /** The search step: an empty query copies the table, otherwise rows are masked. */
  function Search(t: Table, query: string): (r: Table)
    ensures IsSubsequence(r, t)
    ensures forall row :: row in r <==> row in t && SearchAdmits(row, query)
    ensures forall row :: multiset(r)[row] == if SearchAdmits(row, query) then multiset(t)[row] else 0
    ensures query == "" ==> r == t
    ensures (forall i :: 0 <= i < |t| ==> SearchAdmits(t[i], query)) ==> r == t
  {
    if query == "" then
      SubsequenceReflexive(t);
      t
    else
      Filter(t, SearchMask(query))
  }

  /** One level's filter: skipped for "All", otherwise the cell must equal the choice. */
  function ByLevel(t: Table, level: Level, choice: string): (r: Table)
    ensures IsSubsequence(r, t)
    ensures forall row :: row in r <==> row in t && LevelAdmits(row, level, choice)
    ensures forall row :: multiset(r)[row] == if LevelAdmits(row, level, choice) then multiset(t)[row] else 0
    ensures choice == All ==> r == t
    ensures (forall i :: 0 <= i < |t| ==> LevelAdmits(t[i], level, choice)) ==> r == t
  {
    if choice == All then
      SubsequenceReflexive(t);
      t
    else
      Filter(t, HasValue(level, choice))
  }

  /** The table the grid shows: search first, then sector, industry and sub-industry. */
  function ApplyFilters(t: Table, sel: FilterSelection): (r: Table)
    ensures IsSubsequence(r, t)
    ensures forall row :: row in r <==> row in t && Admits(sel, row)
  {
    var searched := Search(t, sel.query);
    var bySector := ByLevel(searched, Sector, sel.sector);
    var byIndustry := ByLevel(bySector, Industry, sel.industry);
    var bySubIndustry := ByLevel(byIndustry, SubIndustry, sel.subIndustry);
    SubsequenceTransitive(bySector, searched, t);
    SubsequenceTransitive(byIndustry, bySector, t);
    SubsequenceTransitive(bySubIndustry, byIndustry, t);
    bySubIndustry
  }

  /** A level whose choice is not "All" lets through only rows whose cell is exactly that
      choice; in particular a row with a missing cell at that level never survives. */
  lemma ChosenLevelIsExact(t: Table, sel: FilterSelection, level: Level)
    requires Choice(sel, level) != All
    ensures forall i :: 0 <= i < |ApplyFilters(t, sel)| ==>
      Cell(ApplyFilters(t, sel)[i], level) == Some(Choice(sel, level))
  {
    var r := ApplyFilters(t, sel);
    forall i | 0 <= i < |r|
      ensures Cell(r[i], level) == Some(Choice(sel, level))
    {
      assert r[i] in r;
    }
  }

  function SetChoice(sel: FilterSelection, level: Level, choice: string): FilterSelection
  {
    match level
    case Sector => sel.(sector := choice)
    case Industry => sel.(industry := choice)
    case SubIndustry => sel.(subIndustry := choice)
  }

  /** The whole filter as one boolean mask: search box, then the three dropdowns. */
  function ShownMask(sel: FilterSelection): Row -> bool
  {
    row =>
      && (sel.query == "" || MatchesSearch(row, sel.query))
      && (sel.sector == All || row.sector == Some(sel.sector))
      && (sel.industry == All || row.industry == Some(sel.industry))
      && (sel.subIndustry == All || row.subIndustry == Some(sel.subIndustry))
  }

  function SearchStep(query: string): Row -> bool
  {
    row => query == "" || MatchesSearch(row, query)
  }

  function LevelStep(level: Level, choice: string): Row -> bool
  {
    row => choice == All || Cell(row, level) == Some(choice)
  }

  lemma SearchIsMask(t: Table, query: string)
    ensures Search(t, query) == Filter(t, SearchStep(query))
  {
    if query != "" {
      FilterExtensional(t, SearchMask(query), SearchStep(query));
    }
  }

  lemma ByLevelIsMask(t: Table, level: Level, choice: string)
    ensures ByLevel(t, level, choice) == Filter(t, LevelStep(level, choice))
  {
    if choice != All {
      FilterExtensional(t, HasValue(level, choice), LevelStep(level, choice));
    }
  }

  function SearchAndSector(sel: FilterSelection): Row -> bool
  {
    row => SearchStep(sel.query)(row) && LevelStep(Sector, sel.sector)(row)
  }

  function UpToIndustry(sel: FilterSelection): Row -> bool
  {
    row => SearchAndSector(sel)(row) && LevelStep(Industry, sel.industry)(row)
  }

  lemma SectorStepIsMask(t: Table, sel: FilterSelection)
    ensures ByLevel(Search(t, sel.query), Sector, sel.sector) == Filter(t, SearchAndSector(sel))
  {
    SearchIsMask(t, sel.query);
    ByLevelIsMask(Search(t, sel.query), Sector, sel.sector);
    FilterFusion(t, SearchStep(sel.query), LevelStep(Sector, sel.sector), SearchAndSector(sel));
  }

  lemma IndustryStepIsMask(t: Table, sel: FilterSelection)
    ensures ByLevel(Filter(t, SearchAndSector(sel)), Industry, sel.industry) == Filter(t, UpToIndustry(sel))
  {
    ByLevelIsMask(Filter(t, SearchAndSector(sel)), Industry, sel.industry);
    FilterFusion(t, SearchAndSector(sel), LevelStep(Industry, sel.industry), UpToIndustry(sel));
  }

  lemma ShownMaskSplits(sel: FilterSelection, row: Row)
    ensures ShownMask(sel)(row) == (UpToIndustry(sel)(row) && LevelStep(SubIndustry, sel.subIndustry)(row))
  {
    assert SearchStep(sel.query)(row) == (sel.query == "" || MatchesSearch(row, sel.query));
    assert LevelStep(Sector, sel.sector)(row) == (sel.sector == All || row.sector == Some(sel.sector));
    assert LevelStep(Industry, sel.industry)(row) == (sel.industry == All || row.industry == Some(sel.industry));
    assert LevelStep(SubIndustry, sel.subIndustry)(row) ==
      (sel.subIndustry == All || row.subIndustry == Some(sel.subIndustry));
    assert SearchAndSector(sel)(row) == (SearchStep(sel.query)(row) && LevelStep(Sector, sel.sector)(row));
    assert UpToIndustry(sel)(row) == (SearchAndSector(sel)(row) && LevelStep(Industry, sel.industry)(row));
  }

  lemma SubIndustryStepIsMask(t: Table, sel: FilterSelection)
    ensures ByLevel(Filter(t, UpToIndustry(sel)), SubIndustry, sel.subIndustry) == Filter(t, ShownMask(sel))
  {
    ByLevelIsMask(Filter(t, UpToIndustry(sel)), SubIndustry, sel.subIndustry);
    forall row
      ensures ShownMask(sel)(row) == (UpToIndustry(sel)(row) && LevelStep(SubIndustry, sel.subIndustry)(row))
    {
      ShownMaskSplits(sel, row);
    }
    FilterFusion(t, UpToIndustry(sel), LevelStep(SubIndustry, sel.subIndustry), ShownMask(sel));
  }

  /** The four filtering steps of the page select exactly the rows of one conjunctive mask. */
  lemma ApplyFiltersIsOneMask(t: Table, sel: FilterSelection)
    ensures ApplyFilters(t, sel) == Filter(t, ShownMask(sel))
  {
    SectorStepIsMask(t, sel);
    IndustryStepIsMask(t, sel);
    SubIndustryStepIsMask(t, sel);
  }

  /** The executable mask and the reference predicate agree on every row. */
  lemma ShownMaskMeansAdmits(sel: FilterSelection, row: Row)
    ensures ShownMask(sel)(row) <==> Admits(sel, row)
  {
  }

  /** Each row appears in the grid as often as in the table if it is admitted, else never. */
  lemma ApplyFiltersCounts(t: Table, sel: FilterSelection, row: Row)
    ensures multiset(ApplyFilters(t, sel))[row] == if Admits(sel, row) then multiset(t)[row] else 0
  {
    ApplyFiltersIsOneMask(t, sel);
    ShownMaskMeansAdmits(sel, row);
  }

  /** A table whose every row is admitted is shown unchanged. */
  lemma ApplyFiltersKeepsAdmitted(t: Table, sel: FilterSelection)
    requires forall i :: 0 <= i < |t| ==> Admits(sel, t[i])
    ensures ApplyFilters(t, sel) == t
  {
    ApplyFiltersIsOneMask(t, sel);
    forall i | 0 <= i < |t|
      ensures ShownMask(sel)(t[i])
    {
      ShownMaskMeansAdmits(sel, t[i]);
    }
  }

  /** Filtering an already filtered table with the same selection changes nothing. */
  lemma ApplyFiltersIdempotent(t: Table, sel: FilterSelection)
    ensures ApplyFilters(ApplyFilters(t, sel), sel) == ApplyFilters(t, sel)
  {
    var r := ApplyFilters(t, sel);
    forall i | 0 <= i < |r|
      ensures Admits(sel, r[i])
    {
      assert r[i] in r;
    }
    ApplyFiltersKeepsAdmitted(r, sel);
  }

  /** With an empty search box and every dropdown on "All", the whole table is shown in order. */
  lemma NoFilterKeepsTable(t: Table)
    ensures ApplyFilters(t, FilterSelection("", All, All, All)) == t
  {
    ApplyFiltersKeepsAdmitted(t, FilterSelection("", All, All, All));
  }

  /** Setting a level to "All" never removes a row: the rows shown under `sel` appear, in the
      same order, among those shown once that level is widened to the wildcard. */
  lemma WildcardRemovesNothing(t: Table, sel: FilterSelection, level: Level)
    ensures IsSubsequence(ApplyFilters(t, sel), ApplyFilters(t, SetChoice(sel, level, All)))
  {
    var wider := SetChoice(sel, level, All);
    ApplyFiltersIsOneMask(t, sel);
    ApplyFiltersIsOneMask(t, wider);
    FilterMonotone(t, ShownMask(sel), ShownMask(wider));
  }

  /** The search ignores letter case: two queries that agree after lower-casing select the
      same rows in the same order. */
  lemma SearchIgnoresCase(t: Table, q1: string, q2: string)
    requires Lower(q1) == Lower(q2)
    ensures Search(t, q1) == Search(t, q2)
  {
    if q1 != "" {
      assert |q2| == |q1|;
      FilterExtensional(t, SearchMask(q1), SearchMask(q2));
    }
  }

  /** Two companies, "Acme Co" in Tech and "Bolt Inc" in Industrial. */
  function Acme(): Row
  {
    Row(Some("A"), Some("Acme Co"), None, Some("Tech"), None, None, None)
  }

  function Bolt(): Row
  {
    Row(Some("B"), Some("Bolt Inc"), None, Some("Industrial"), None, None, None)
  }

  lemma BoltQueryHits()
    ensures !MatchesSearch(Acme(), "bolt") && MatchesSearch(Bolt(), "bolt")
  {
    assert Lower("bolt") == "bolt";
    assert Lower("A") == "a";
    assert Lower("Acme Co") == "acme co";
    assert Lower("Bolt Inc") == "bolt inc";
    FirstCharAbsent("acme co", "bolt");
    assert "bolt inc"[..4] == "bolt";
  }

  /** The sector dropdown on "Tech" keeps only Acme. */
  lemma TechSectorExample()
    ensures ApplyFilters([Acme(), Bolt()], FilterSelection("", "Tech", All, All)) == [Acme()]
  {
    var sel := FilterSelection("", "Tech", All, All);
    ApplyFiltersIsOneMask([Acme(), Bolt()], sel);
    assert ShownMask(sel)(Acme()) && !ShownMask(sel)(Bolt());
    assert [Acme(), Bolt()][1..] == [Bolt()];
  }

  /** The query "bolt" keeps only Bolt. */
  lemma BoltQueryExample()
    ensures ApplyFilters([Acme(), Bolt()], FilterSelection("bolt", All, All, All)) == [Bolt()]
  {
    var t := [Acme(), Bolt()];
    var sel := FilterSelection("bolt", All, All, All);
    var m := ShownMask(sel);
    BoltQueryHits();
    ApplyFiltersIsOneMask(t, sel);
    assert !m(Acme()) && m(Bolt());
    assert t[1..] == [Bolt()];
    assert Filter(t, m) == Filter([Bolt()], m);
    assert [Bolt()][1..] == [];
    assert Filter([Bolt()], m) == [Bolt()] + Filter([], m);
  }

  /** Upper-casing the query changes nothing: "BOLT" also keeps only Bolt. */
  lemma UpperCaseQueryExample()
    ensures ApplyFilters([Acme(), Bolt()], FilterSelection("BOLT", All, All, All)) == [Bolt()]
  {
    BoltQueryExample();
    BoltFolds();
    SearchIgnoresCase([Acme(), Bolt()], "BOLT", "bolt");
  }

  lemma BoltFolds()
    ensures Lower("BOLT") == Lower("bolt")
  {
    assert Lower("BOLT") == "bolt";
    assert Lower("bolt") == "bolt";
  }
}
