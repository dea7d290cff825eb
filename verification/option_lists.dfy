/** The cascading dropdowns: each offers "All" followed by the sorted distinct non-missing
    values of one column, taken from the full table restricted by the coarser choices. */
module OptionLists {
  import opened Wrappers
  import opened Seqs
  import opened Text
  import opened Companies
  import opened FilterEngine

  /** `df[level].dropna().tolist()`: the non-missing cells of a column, in row order. */
  function Present(t: Table, level: Level): (vs: seq<string>)
    ensures forall v :: v in vs <==> exists row :: row in t && Cell(row, level) == Some(v)
    decreases |t|
  {
    if |t| == 0 then []
    else
      assert t == [t[0]] + t[1..];
      var rest := Present(t[1..], level);
      match Cell(t[0], level)
      case Some(v) => [v] + rest
      case None => rest
  }

  /** `["All"] + sorted(values.unique())`. */
  function Choices(values: seq<string>): (r: seq<string>)
    ensures |r| >= 1 && r[0] == All
    ensures StrictlyAscending(r[1..])
    ensures forall v :: v in r[1..] <==> v in values
  {
    assert ([All] + SortedDistinct(values))[1..] == SortedDistinct(values);
    [All] + SortedDistinct(values)
  }

  /** The dropdown lists are canonical: whatever ascending duplicate-free listing of the same
      values one writes down, the list offered after "All" is that one. */
  lemma ChoicesCanonical(values: seq<string>, listing: seq<string>)
    requires StrictlyAscending(listing)
    requires forall v :: v in listing <==> v in values
    ensures Choices(values) == [All] + listing
  {
    var r := Choices(values);
    AscendingUnique(r[1..], listing);
    assert r == [r[0]] + r[1..];
  }

  /** Sector choices: every sector present anywhere in the table. */
  function SectorOptions(t: Table): (r: seq<string>)
    ensures |r| >= 1 && r[0] == All
    ensures StrictlyAscending(r[1..])
    ensures forall v :: v in r[1..] <==> exists row :: row in t && row.sector == Some(v)
  {
    Choices(Present(t, Sector))
  }

  /** Industry choices: the industries of rows in the chosen sector, or of every row when the
      sector is "All". */
  function IndustryOptions(t: Table, sector: string): (r: seq<string>)
    ensures |r| >= 1 && r[0] == All
    ensures StrictlyAscending(r[1..])
    ensures forall v :: v in r[1..] <==>
      exists row :: row in t && row.industry == Some(v) && (sector == All || row.sector == Some(sector))
  {
    var source := if sector != All then Filter(t, HasValue(Sector, sector)) else t;
    Choices(Present(source, Industry))
  }

  /** The mask `(df["industry"] == industry) & (df["sector"] == sector)`. */
  function InIndustryAndSector(sector: string, industry: string): Row -> bool
  {
    (row: Row) => row.industry == Some(industry) && row.sector == Some(sector)
  }

  /** Sub-industry choices: every sub-industry when the industry is "All"; otherwise those of
      rows matching both the industry and the sector, the sector compared literally even when
      it is "All". */
  function SubIndustryOptions(t: Table, sector: string, industry: string): (r: seq<string>)
    ensures |r| >= 1 && r[0] == All
    ensures StrictlyAscending(r[1..])
    ensures forall v :: v in r[1..] <==>
      exists row :: row in t && row.subIndustry == Some(v) &&
        (industry == All || (row.industry == Some(industry) && row.sector == Some(sector)))
  {
    var source := if industry != All then Filter(t, InIndustryAndSector(sector, industry)) else t;
    Choices(Present(source, SubIndustry))
  }

  /** A duplicate-free ascending list whose values all occur in another such list is a
      subsequence of it. */
  lemma {:induction false} AscendingSubsetIsSubsequence(a: seq<string>, b: seq<string>)
    requires StrictlyAscending(a) && StrictlyAscending(b)
    requires forall v :: v in a ==> v in b
    ensures IsSubsequence(a, b)
    decreases |b|
  {
    assert |a| > 0 ==> a[0] in a;
    if |b| > 0 {
      assert b == [b[0]] + b[1..];
      if |a| > 0 && a[0] == b[0] {
        assert a == [a[0]] + a[1..];
        forall v | v in a[1..]
          ensures v in b[1..]
        {
          AscendingHeadLeast(a, v);
          LessIrreflexive(v);
          assert v in a && v != b[0];
        }
        AscendingSubsetIsSubsequence(a[1..], b[1..]);
      } else {
        forall v | v in a
          ensures v in b[1..]
        {
          if v == b[0] {
            assert a == [a[0]] + a[1..];
            assert a[0] in a && a[0] != b[0];
            assert v in a[1..];
            AscendingHeadLeast(a, v);
            assert a[0] in b[1..];
            AscendingHeadLeast(b, a[0]);
            LessAsymmetric(a[0], v);
          }
        }
        AscendingSubsetIsSubsequence(a, b[1..]);
      }
    }
  }

  /** Choosing a sector narrows the industry list: it keeps a subset of the industries
      offered for "All", listed in the same relative order. */
  lemma IndustryOptionsNarrow(t: Table, sector: string)
    ensures IsSubsequence(IndustryOptions(t, sector), IndustryOptions(t, All))
  {
    var narrow, wide := IndustryOptions(t, sector), IndustryOptions(t, All);
    AscendingSubsetIsSubsequence(narrow[1..], wide[1..]);
    assert narrow == [narrow[0]] + narrow[1..] && wide == [wide[0]] + wide[1..];
  }

  /** With the sector on "All" and a specific industry, the sub-industry list is only "All"
      unless some row's sector is literally the text "All". */
  lemma SubIndustryIgnoresWildcardSector(t: Table, industry: string)
    requires industry != All
    requires forall row :: row in t ==> row.sector != Some(All)
    ensures SubIndustryOptions(t, All, industry) == [All]
  {
  }

  /** Every sector of a row the grid shows is offered by the sector dropdown. */
  lemma ShownSectorsOffered(t: Table, sel: FilterSelection)
    ensures forall row :: row in ApplyFilters(t, sel) && row.sector.Some? ==>
      row.sector.value in SectorOptions(t)[1..]
  {
    forall row | row in ApplyFilters(t, sel) && row.sector.Some?
      ensures row.sector.value in SectorOptions(t)[1..]
    {
      assert row in t;
    }
  }

  /** Every industry of a row the grid shows is offered by the industry dropdown. */
  lemma ShownIndustriesOffered(t: Table, sel: FilterSelection)
    ensures forall row :: row in ApplyFilters(t, sel) && row.industry.Some? ==>
      row.industry.value in IndustryOptions(t, sel.sector)[1..]
  {
    forall row | row in ApplyFilters(t, sel) && row.industry.Some?
      ensures row.industry.value in IndustryOptions(t, sel.sector)[1..]
    {
      assert row in t && LevelAdmits(row, Sector, sel.sector);
    }
  }

  /** Every sub-industry of a row the grid shows is offered by the sub-industry dropdown,
      provided the sector is chosen or the industry is "All". */
  lemma ShownSubIndustriesOffered(t: Table, sel: FilterSelection)
    requires sel.industry == All || sel.sector != All
    ensures forall row :: row in ApplyFilters(t, sel) && row.subIndustry.Some? ==>
      row.subIndustry.value in SubIndustryOptions(t, sel.sector, sel.industry)[1..]
  {
    forall row | row in ApplyFilters(t, sel) && row.subIndustry.Some?
      ensures row.subIndustry.value in SubIndustryOptions(t, sel.sector, sel.industry)[1..]
    {
      ShownSubIndustryOffered(t, sel, row);
    }
  }

  lemma ShownSubIndustryOffered(t: Table, sel: FilterSelection, row: Row)
    requires sel.industry == All || sel.sector != All
    requires row in ApplyFilters(t, sel) && row.subIndustry.Some?
    ensures row.subIndustry.value in SubIndustryOptions(t, sel.sector, sel.industry)[1..]
  {
    assert Admits(sel, row) && row in t;
    var admitted := sel.industry == All || (row.industry == Some(sel.industry) && row.sector == Some(sel.sector));
    assert admitted by {
      assert LevelAdmits(row, Sector, sel.sector) && LevelAdmits(row, Industry, sel.industry);
    }
    assert row in t && row.subIndustry == Some(row.subIndustry.value) && admitted;
  }
}
