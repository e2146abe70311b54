/** One render pass of the dashboard script, with the sidebar widgets as plain
    inputs: the option list, the bar-chart table and the donut totals, and the
    facts that tie the two charts to each other and to the filtered view. */
module Dashboard {
  import opened Frame
  import opened FilterResolver
  import opened DistrictAggregator
  import opened PieAggregator
  import opened Grouping

  datatype View = View(options: seq<string>, bars: seq<DistrictRow>, pie: Counts)

  /** Everything one pass computes from the table and the filter widgets;
      the option list is empty when "All" shows no value selectbox. */
  function Render(rows: seq<Row>, filter: GeoFilter, selected: Option<string>): View
  {
    var view := Filter(rows, filter, selected);
    View(if filter.ByColumn? then Options(rows, filter.column) else [],
         AggregateByDistrict(view),
         PieTotals(view, filter, selected))
  }

  /** The two charts agree: the bars' TotalResources add up to the sum of
      the four donut totals, and the donut totals are the filtered view's
      column sums. */
  lemma ChartsAgree(rows: seq<Row>, filter: GeoFilter, selected: Option<string>)
    ensures Render(rows, filter, selected).pie == SumCounts(Filter(rows, filter, selected))
    ensures SumTotalResources(Render(rows, filter, selected).bars) == Total(Render(rows, filter, selected).pie)
  {
    var view := Filter(rows, filter, selected);
    PieTotalsConserved(rows, filter, selected);
    AggregateTotal(view);
  }

  /** A filter that matches nothing gives no bars and an all-zero donut. */
  lemma EmptySelection(rows: seq<Row>, filter: GeoFilter, selected: Option<string>)
    requires Filter(rows, filter, selected) == []
    ensures Render(rows, filter, selected).bars == []
    ensures Render(rows, filter, selected).pie == Counts(0, 0, 0, 0)
  {
    ChartsAgree(rows, filter, selected);
    AggregateTotal([]);
  }

  /** A governorate `g` holding the rows `a` and `b`, and a row `c` lying in
      another governorate. Choosing `g` keeps `a` and `b`, in that order. */
  lemma ScenarioView(a: Row, b: Row, c: Row, g: string)
    requires g != "" && a.governorate == g && b.governorate == g && c.governorate != g
    ensures Filter([a, b, c], ByColumn(Governorate), Some(g)) == [a, b]
  {
    var key := [g];
    SingleKey(a, Governorate, g);
    SingleKey(b, Governorate, g);
    SingleKey(c, Governorate, g);
    assert Select([c], [Governorate], key) == [] by {
      assert [c][1..] == [];
    }
    assert Select([b, c], [Governorate], key) == [b] by {
      assert [b, c][1..] == [c];
    }
    assert Select([a, b, c], [Governorate], key) == [a, b] by {
      assert [a, b, c][1..] == [b, c];
    }
  }

  /** The Governorate selectbox offers `g` and then the other governorate. */
  lemma ScenarioOptions(a: Row, b: Row, c: Row, g: string)
    requires a.governorate == g && b.governorate == g && c.governorate != g
    ensures Options([a, b, c], Governorate) == [g, c.governorate]
  {
    var vs := ColumnValues([a, b, c], Governorate);
    assert vs == [g, g, c.governorate];
    assert vs[..2] == [g, g] && [g, g][..1] == [g] && [g][..0] == [];
    assert Unique([g]) == [g];
    assert Unique([g, g]) == [g];
  }

  /** Choosing `g` gives a donut of the counts of `a` and `b` added together. */
  lemma ScenarioPie(a: Row, b: Row, c: Row, g: string)
    requires g != "" && a.governorate == g && b.governorate == g && c.governorate != g
    ensures PieTotals(Filter([a, b, c], ByColumn(Governorate), Some(g)), ByColumn(Governorate), Some(g))
         == Add(a.counts, b.counts)
  {
    ScenarioView(a, b, c, g);
    PieTotalsConserved([a, b, c], ByColumn(Governorate), Some(g));
    assert [a, b][1..] == [b] && [b][1..] == [];
    AddZero(b.counts);
    assert SumCounts([b]) == b.counts;
  }

  lemma OneDistrict(r: Row)
    ensures GroupBy([r], [District]) == [Group([r.district], r.counts)]
  {
    assert [r][1..] == [];
    assert KeyOf(r, [District]) == [r.district];
  }

  /** Two rows of different districts group into two groups, the smaller
      district name first. */
  lemma TwoGroups(a: Row, b: Row)
    requires a.district != b.district
    ensures GroupBy([a, b], [District])
         == if Order.StrLt(a.district, b.district)
            then [Group([a.district], a.counts), Group([b.district], b.counts)]
            else [Group([b.district], b.counts), Group([a.district], a.counts)]
  {
    assert [a, b][1..] == [b];
    OneDistrict(b);
    assert KeyOf(a, [District]) == [a.district];
    var gb := [Group([b.district], b.counts)];
    if Order.StrLt(a.district, b.district) {
      Order.StrLtIrreflexive(a.district);
      assert Order.KeyLt([a.district], [b.district]);
    } else {
      assert !Order.KeyLt([a.district], [b.district]);
      assert gb[1..] == [];
      assert Insert(gb, [a.district], a.counts) == [gb[0]] + Insert([], [a.district], a.counts);
    }
  }

  /** Two groups become two rows of the unsorted bar-chart table, in order. */
  lemma TwoRows(view: seq<Row>, x: string, cx: Counts, y: string, cy: Counts)
    requires GroupBy(view, [District]) == [Group([x], cx), Group([y], cy)]
    ensures DistrictTable(view) == [DistrictRow(x, cx, Total(cx)), DistrictRow(y, cy, Total(cy))]
  {
  }

  /** Sorting two rows puts the one with strictly more resources first,
      whichever order they come in. */
  lemma SortTwo(d1: DistrictRow, d2: DistrictRow)
    requires d1.totalResources > d2.totalResources
    ensures SortDesc([d1, d2]) == [d1, d2]
    ensures SortDesc([d2, d1]) == [d1, d2]
  {
    assert [d1, d2][1..] == [d2] && [d2][1..] == [];
    assert [d2, d1][1..] == [d1] && [d1][1..] == [];
    assert SortDesc([d1]) == [d1];
    assert InsertDesc(d2, [d1]) == [d1] + InsertDesc(d2, []);
  }

  /** Two rows of different districts, the first with strictly more
      resources, give two bars in that order, whichever name is smaller:
      the sort undoes groupby's name order when the names are reversed. */
  lemma TwoDistricts(a: Row, b: Row)
    requires a.district != b.district
    requires Total(a.counts) > Total(b.counts)
    ensures AggregateByDistrict([a, b])
         == [DistrictRow(a.district, a.counts, Total(a.counts)), DistrictRow(b.district, b.counts, Total(b.counts))]
  {
    var d1 := DistrictRow(a.district, a.counts, Total(a.counts));
    var d2 := DistrictRow(b.district, b.counts, Total(b.counts));
    TwoGroups(a, b);
    SortTwo(d1, d2);
    if Order.StrLt(a.district, b.district) {
      TwoRows([a, b], a.district, a.counts, b.district, b.counts);
    } else {
      TwoRows([a, b], b.district, b.counts, a.district, a.counts);
    }
  }

  /** Choosing `g` gives one bar per district of `g`, the one with strictly
      more resources first, whatever the two district names. */
  lemma ScenarioBars(a: Row, b: Row, c: Row, g: string)
    requires g != "" && a.governorate == g && b.governorate == g && c.governorate != g
    requires a.district != b.district && Total(a.counts) > Total(b.counts)
    ensures AggregateByDistrict(Filter([a, b, c], ByColumn(Governorate), Some(g)))
         == [DistrictRow(a.district, a.counts, Total(a.counts)), DistrictRow(b.district, b.counts, Total(b.counts))]
  {
    ScenarioView(a, b, c, g);
    TwoDistricts(a, b);
  }
}
