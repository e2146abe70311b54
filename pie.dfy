/** The pie aggregator behind the donut chart (app.py:151-176): the filtered
    view grouped by (Governorate, District), collapsed according to the
    filter, and reduced to one total per resource column. */
module PieAggregator {
  import opened Frame
  import opened FilterResolver
  import opened Grouping

  /** `reset_index()` after `groupby(["Governorate", "District"])`: each group
      becomes a row again, its key spread over the two key columns. */
  function GroupsToRows(g: seq<Group>): seq<Row>
    requires forall i :: 0 <= i < |g| ==> |g[i].key| == 2
  {
    seq(|g|, i requires 0 <= i < |g| => Row(g[i].key[0], g[i].key[1], g[i].counts))
  }

  /** The first `df_pie`: one row per (Governorate, District) pair of the view. */
  function PieTable(view: seq<Row>): seq<Row>
  {
    var g := GroupBy(view, [Governorate, District]);
    assert forall i :: 0 <= i < |g| ==> |g[i].key| == 2 by {
      forall i | 0 <= i < |g| ensures |g[i].key| == 2 {
        GroupAt(view, [Governorate, District], i);
      }
    }
    GroupsToRows(g)
  }

  /** The shapes `df_pie` can take after the collapse step. */
  datatype PieFrame =
    | Table(rows: seq<Row>)               // Governorate, District and the counts
    | ByGovernorate(groups: seq<Group>)   // one row per governorate, District dropped
    | Nationwide(total: Counts)           // a single row of column sums

  /** The collapse of app.py:159-168. A District filter keeps the matching
      rows; a Governorate filter keeps the matching rows and sums them per
      governorate; "All" sums everything into one row; a column filter with
      no value chosen leaves the table as it is. */
  function Collapse(table: seq<Row>, filter: GeoFilter, selected: Option<string>): PieFrame
  {
    if filter == ByColumn(District) && Chosen(selected) then
      Table(Select(table, [District], [selected.value]))
    else if filter == ByColumn(Governorate) && Chosen(selected) then
      ByGovernorate(GroupBy(Select(table, [Governorate], [selected.value]), [Governorate]))
    else if filter == All then
      Nationwide(SumCounts(table))
    else
      Table(table)
  }

  /** `int(df_pie[column].sum())` for each of the four count columns. */
  function ColumnTotals(f: PieFrame): Counts
  {
    match f
    case Table(rows) => SumCounts(rows)
    case ByGovernorate(groups) => SumGroups(groups)
    case Nationwide(total) => total
  }

  /** `resource_totals`: the four values the donut chart shows. */
  function PieTotals(view: seq<Row>, filter: GeoFilter, selected: Option<string>): Counts
  {
    ColumnTotals(Collapse(PieTable(view), filter, selected))
  }

  lemma {:induction false} GroupsToRowsSum(g: seq<Group>)
    requires forall i :: 0 <= i < |g| ==> |g[i].key| == 2
    ensures SumCounts(GroupsToRows(g)) == SumGroups(g)
  {
    if g != [] {
      assert GroupsToRows(g)[1..] == GroupsToRows(g[1..]);
      GroupsToRowsSum(g[1..]);
    }
  }

  /** Regrouping by (Governorate, District) keeps the grand totals, and every
      row of the regrouped table names a (Governorate, District) pair that
      some row of the view carries. */
  lemma PieTableFromView(view: seq<Row>)
    ensures SumCounts(PieTable(view)) == SumCounts(view)
    ensures forall i :: 0 <= i < |PieTable(view)| ==>
      exists j :: 0 <= j < |view| && view[j].governorate == PieTable(view)[i].governorate
                                  && view[j].district == PieTable(view)[i].district
  {
    var g := GroupBy(view, [Governorate, District]);
    forall i | 0 <= i < |g| ensures |g[i].key| == 2 {
      GroupAt(view, [Governorate, District], i);
    }
    GroupsToRowsSum(g);
    var t := PieTable(view);
    forall i | 0 <= i < |t|
      ensures exists j :: 0 <= j < |view| && view[j].governorate == t[i].governorate
                                        && view[j].district == t[i].district
    {
      GroupAt(view, [Governorate, District], i);
      var j :| 0 <= j < |view| && KeyOf(view[j], [Governorate, District]) == g[i].key;
      assert view[j].governorate == t[i].governorate && view[j].district == t[i].district;
    }
  }

  /** With "All", each pie total is the column sum over the whole table. */
  lemma PieTotalsAll(rows: seq<Row>, selected: Option<string>)
    ensures PieTotals(rows, All, selected) == SumCounts(rows)
  {
    PieTableFromView(rows);
  }

  /** If every row of the view holds `v` in column `c`, so does every row of
      the regrouped table, and selecting `v` there keeps it whole. */
  lemma PieTableUniform(view: seq<Row>, c: Column, v: string)
    requires forall j :: 0 <= j < |view| ==> ValueOf(view[j], c) == v
    ensures Select(PieTable(view), [c], [v]) == PieTable(view)
  {
    var t := PieTable(view);
    PieTableFromView(view);
    forall i | 0 <= i < |t| ensures KeyOf(t[i], [c]) == [v] {
      var j :| 0 <= j < |view| && view[j].governorate == t[i].governorate
                               && view[j].district == t[i].district;
      assert ValueOf(view[j], c) == v;
      SingleKey(t[i], c, v);
    }
    SelectAll(t, [c], [v]);
  }

  /** In every branch of the collapse, the pie totals of the filtered view
      are that view's column sums: regrouping and collapsing never change
      them, whether a District or Governorate value is chosen or a column
      filter has no value. */
  lemma PieTotalsConserved(rows: seq<Row>, filter: GeoFilter, selected: Option<string>)
    ensures PieTotals(Filter(rows, filter, selected), filter, selected)
         == SumCounts(Filter(rows, filter, selected))
  {
    var view := Filter(rows, filter, selected);
    PieTableFromView(view);
    if Applies(filter, selected) {
      PieTableUniform(view, filter.column, selected.value);
    }
  }
}
