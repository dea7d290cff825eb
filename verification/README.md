# 10-K prospect browser: company filter engine

This project models the logic of the one-page company browser in `10k_browser.py`
and proves properties about it. The page loads `companies.csv` and checks that it has the
required columns. It then narrows the table by a free-text search on company name and ticker,
and by three cascading dropdowns (sector, industry, sub-industry), each of which offers "All"
or a value. The filtered rows appear in a grid. The report download is offered once some row
of the grid is ticked and the report file exists.

Modules, in dependency order:

- `Wrappers` (`wrappers.dfy`): `Option` for nullable cells, `Result` for the load outcome.
- `Seqs` (`seqs.dfy`): `Filter`, an order-preserving boolean mask, and the subsequence
  relation, with fusion and monotonicity lemmas.
- `Text` (`text.dfy`): ASCII lower-casing, substring containment, Python's ordering of `str`
  (`Less`), and `SortedDistinct`, the `sorted(...unique())` idiom.
- `Companies` (`companies.dfy`): the `Row` record, the required-column check and loading.
- `FilterEngine` (`filter_engine.dfy`): the search step, the three level filters and their
  composition, `ApplyFilters`.
- `OptionLists` (`option_lists.dfy`): the three cascading dropdown lists.
- `Actions` (`actions.dfy`): ticker extraction from the grid's selection and the download gate.
- `Browser` (`browser.dfy`): one render of the page, composing the above.

Each filter is stated twice. The executable form follows the code. The reference form is a
ghost predicate (`FilterEngine.Admits`, with `Mentions` defined by an explicit occurrence
position). The contracts and lemmas connect the two forms. The dropdown lists are pinned down
by `OptionLists.ChoicesCanonical`: the part after "All" is the unique strictly ascending
listing of the value set, so any duplicate-free sorted enumeration of those values is equal
to it.

Where the code and a natural reading of the page differ, the model follows the code:

- The sub-industry list compares the sector literally, even when the sector is "All"
  (line 70). With sector "All" and a specific industry, the list is therefore only "All",
  unless some row's sector is the text "All". `OptionLists.SubIndustryIgnoresWildcardSector`
  states this. `Browser.SubIndustryQuirkExample` shows a row in the grid whose sub-industry
  the dropdown does not offer.
- Tickers are not assumed unique, and rows may repeat. This is why the filter contracts
  count multiplicities (`multiset`).
- The selection is a list, not a set. A selected record without a `ticker` field gives `""`,
  and that still enables the download.

## Model

| member | source | states |
|---|---|---|
| `Seqs.Filter` | 10k_browser.py:54-57 | a boolean mask keeps an order-preserving subsequence, holds exactly the elements satisfying the mask with their multiplicities, and is the identity when every element satisfies it |
| `Text.Lower` | 10k_browser.py:55-56 | case folding keeps the length, leaves no upper-case ASCII letter, keeps every other character where it was, and turns each upper-case letter into its lower-case partner |
| `Text.LowerEqualIff` | 10k_browser.py:55-56 | two strings fold to the same text iff they have the same length and agree at every position up to ASCII case, so `case=False` ignores exactly letter case |
| `Text.LowerIdempotent` | 10k_browser.py:55-56 | folding case twice is the same as folding once, so a folded query is its own folded form |
| `Text.Contains` | 10k_browser.py:55-56 | substring search is true iff the query occurs at some position of the text |
| `Text.LessIrreflexive` | 10k_browser.py:65 | no string sorts before itself under `Text.Less`, Python's code-point order of `str` that `sorted` uses |
| `Text.LessTransitive` | 10k_browser.py:65 | Python's `str` order is transitive |
| `Text.LessTotal` | 10k_browser.py:65 | any two distinct strings are ordered one way or the other |
| `Text.SortedDistinct` | 10k_browser.py:65 | `sorted(unique(...))` is strictly ascending and holds exactly the input's values; its order is `Text.Less` |
| `Text.AscendingUnique` | 10k_browser.py:65 | two strictly ascending lists with the same values are equal |
| `Companies.MissingColumns` | 10k_browser.py:34-35 | the missing list holds exactly the required names absent from the header, in required-list order, and is empty iff all are present |
| `Companies.LoadCompanyData` | 10k_browser.py:31-40 | loading succeeds iff no required column is missing, and then returns the rows unchanged; a failure names the missing columns, a non-empty list in the required order |
| `FilterEngine.Search` | 10k_browser.py:53-59 | an empty query keeps the table; otherwise exactly the rows whose name or ticker contains the query ignoring case, in order and with multiplicity; a missing name or ticker never matches. The mask of lines 55-56 is `SearchMask`, through `MatchesSearch` (name or ticker) and `CellContains` (one column's `str.contains`) |
| `FilterEngine.ByLevel` | 10k_browser.py:74-79 | "All" keeps the table; otherwise exactly the rows whose cell equals the choice, so missing cells are dropped. The mask `df[level] == choice` is `Companies.HasValue` |
| `FilterEngine.ApplyFilters` | 10k_browser.py:53-79 | the grid's table is an order-preserving subsequence of the loaded table holding exactly the rows admitted by the search and all three levels |
| `FilterEngine.ShownMaskMeansAdmits` | 10k_browser.py:53-79 | the executable mask built from the code's conditions agrees with the reference admission predicate on every row |
| `FilterEngine.ApplyFiltersCounts` | 10k_browser.py:53-79 | each row appears in the grid as often as in the table when admitted, and never otherwise |
| `FilterEngine.ApplyFiltersKeepsAdmitted` | 10k_browser.py:53-79 | a table whose every row is admitted is shown unchanged |
| `FilterEngine.ApplyFiltersIsOneMask` | 10k_browser.py:53-79 | the four sequential steps equal a single mask that is the conjunction of the four conditions |
| `FilterEngine.ApplyFiltersIdempotent` | 10k_browser.py:53-79 | filtering the filtered table again with the same choices returns it unchanged |
| `FilterEngine.NoFilterKeepsTable` | 10k_browser.py:53-79 | with an empty query and every level on "All", the whole table is shown in order |
| `FilterEngine.ChosenLevelIsExact` | 10k_browser.py:74-79 | for a level not on "All", every shown row has exactly the chosen value there |
| `FilterEngine.WildcardRemovesNothing` | 10k_browser.py:74-79 | widening any level to "All" keeps every row shown before, in the same order |
| `FilterEngine.SearchIgnoresCase` | 10k_browser.py:55-56 | two queries equal after lower-casing select the same rows |
| `FilterEngine.TechSectorExample` | 10k_browser.py:74-75 | on the Acme/Bolt table, sector "Tech" keeps only Acme |
| `FilterEngine.BoltQueryExample` | 10k_browser.py:53-57 | on the Acme/Bolt table, query "bolt" keeps only Bolt |
| `FilterEngine.UpperCaseQueryExample` | 10k_browser.py:55-56 | query "BOLT" also keeps only Bolt |
| `OptionLists.Present` | 10k_browser.py:65 | `dropna()` of a column lists exactly the values some row has there |
| `OptionLists.Choices` | 10k_browser.py:65 | a dropdown list starts with "All", and the rest is strictly ascending and holds exactly the given values |
| `OptionLists.ChoicesCanonical` | 10k_browser.py:65 | the list after "All" is the one duplicate-free ascending listing of the values |
| `OptionLists.SectorOptions` | 10k_browser.py:65 | sector choices are "All", then every sector present in the full table, ascending |
| `OptionLists.IndustryOptions` | 10k_browser.py:67-68 | industry choices come from rows of the chosen sector, or from all rows when the sector is "All" |
| `OptionLists.SubIndustryOptions` | 10k_browser.py:70-71 | sub-industry choices come from all rows when the industry is "All", otherwise from rows matching both the industry and the sector, compared literally; that mask is `OptionLists.InIndustryAndSector` |
| `OptionLists.IndustryOptionsNarrow` | 10k_browser.py:67-68 | the industry list for a chosen sector is a subsequence of the list for "All" |
| `OptionLists.SubIndustryIgnoresWildcardSector` | 10k_browser.py:70 | with sector "All" and a specific industry, the sub-industry list is just "All" unless some row's sector is the text "All" |
| `OptionLists.ShownSectorsOffered` | 10k_browser.py:65-75 | every sector of a shown row is offered by the sector dropdown |
| `OptionLists.ShownIndustriesOffered` | 10k_browser.py:67-77 | every industry of a shown row is offered by the industry dropdown |
| `OptionLists.ShownSubIndustriesOffered` | 10k_browser.py:70-79 | every sub-industry of a shown row is offered, when the sector is chosen or the industry is "All" |
| `Actions.Tickers` | 10k_browser.py:94 | one ticker per selected record, in order: its `ticker` field, or `""` when absent, as `TickerOf` reads `row.get("ticker", "")` |
| `Actions.SelectedTickers` | 10k_browser.py:92-96 | a list of records yields their tickers; a missing key, a non-list, or a list holding a non-record yields none; `AllRecords` is line 93's test that every entry is a dict |
| `Actions.DownloadGate` | 10k_browser.py:92-107 | `DownloadOffered`, line 107's condition, holds iff the report exists and the selection is a non-empty list of records |
| `Actions.RecordWithoutTickerCounts` | 10k_browser.py:94-107 | a selected record with no ticker field still yields `""` and enables the download |
| `Browser.Render` | 10k_browser.py:52-79 | the grid shows exactly the admitted rows, in table order and with their multiplicities; each dropdown is "All" followed by the ascending, duplicate-free values of the rows that match the upstream choices; each shown row's sector and industry are offered, and so is its sub-industry unless the sector is "All" while the industry is not |
| `Browser.OptionsIgnoreSearch` | 10k_browser.py:53-71 | the dropdown lists do not depend on the search text or the sub-industry choice |
| `Browser.ShowPage` | 10k_browser.py:31-107 | the page shows an error iff a required column is missing, listing exactly the missing columns in the required order; otherwise it renders the loaded rows, the grid holding exactly the admitted ones in order, the tickers are those of the selected records one per row, and the download is offered iff the report exists and the selection is a non-empty list of records |
| `Browser.SubIndustryQuirkExample` | 10k_browser.py:70-79 | one-row table where sector "All" and industry "Software" show a row whose sub-industry "Apps" is not offered |

## Left out

- Page configuration, styling, titles, widget construction and grid rendering (lines 7-28, 48-50, 62-64, 82-90, 99-104): presentation only. The grid's selection is an input (`Actions.GridSelection`).
- CSV parsing and the exception-to-message path (lines 33, 41-43): these are file I/O and pandas. The parsed header and rows are inputs of `Companies.LoadCompanyData`.
- Opening and streaming `report.docx`, its download file name and MIME type (lines 108-114): file I/O. The existence of the file is a boolean input.
- The "Submit Inquiry" button and the inquiry text (lines 100-104): they only show a confirmation message.
- FilterEngine.Search: `str.contains` treats the query as a regular expression. The model uses plain substring containment, so it describes queries without regular-expression metacharacters.
- Text.Lower: pandas folds case over all of Unicode. The model folds only ASCII letters.
- The widgets restrict each dropdown choice to its current option list. `FilterEngine.FilterSelection` accepts any strings, which covers every value the widgets can return, including a stale one kept across reruns.
- Cell types other than text (for example, numeric tickers read by pandas): the model takes every cell to be a string or missing.
- FilterEngine.Search: when every cell of the ticker column, or of the company-name column, is empty, pandas reads that column as numbers, and `.str.contains` on lines 55-56 raises outside the `try` of `load_company_data`, so a non-empty query stops the page. The model has no such error: it matches on the other column.
- The service-taxonomy variant of the page is not part of this model.
