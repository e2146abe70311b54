/** The district aggregator behind the bar chart (app.py:71-95): the filtered
    view grouped by District with the four counts summed, a TotalResources
    column added, and the rows sorted by it in descending order. */
module DistrictAggregator {
  import opened Frame
  import opened FilterResolver
  import opened Order
  import opened Grouping

  /** One row of `df_agg`: the district, its summed counts and TotalResources. */
  datatype DistrictRow = DistrictRow(district: string, counts: Counts, totalResources: nat)

  /** Turns the groups of `groupby("District")` back into rows and adds the
      derived TotalResources column. */
  function WithTotalResources(g: seq<Group>): seq<DistrictRow>
    requires forall i :: 0 <= i < |g| ==> |g[i].key| == 1
  {
    seq(|g|, i requires 0 <= i < |g| => DistrictRow(g[i].key[0], g[i].counts, Total(g[i].counts)))
  }

  /** Non-increasing TotalResources from each row to the next. */
  predicate SortedDesc(s: seq<DistrictRow>)
  {
    forall i :: 0 <= i < |s| - 1 ==> s[i].totalResources >= s[i + 1].totalResources
  }

  predicate DistinctDistricts(s: seq<DistrictRow>)
  {
    forall i, j :: 0 <= i < j < |s| ==> s[i].district != s[j].district
  }

  /** The District column of the aggregated table. */
  function Districts(s: seq<DistrictRow>): seq<string>
  {
    seq(|s|, i requires 0 <= i < |s| => s[i].district)
  }

  function SumTotalResources(s: seq<DistrictRow>): nat
  {
    if s == [] then 0 else s[0].totalResources + SumTotalResources(s[1..])
  }

  /** Places `x` into a descending sequence. */
  function InsertDesc(x: DistrictRow, s: seq<DistrictRow>): (r: seq<DistrictRow>)
    requires SortedDesc(s)
    ensures SortedDesc(r)
    ensures multiset(r) == multiset(s) + multiset{x}
    ensures r[0] == x || (s != [] && r[0] == s[0])
  {
    if s == [] || x.totalResources >= s[0].totalResources then
      [x] + s
    else
      var rest := InsertDesc(x, s[1..]);
      var r := [s[0]] + rest;
      assert SortedDesc(r) by {
        assert r[1..] == rest;
        assert s[0].totalResources >= rest[0].totalResources;
      }
      assert multiset(r) == multiset(s) + multiset{x} by {
        assert s == [s[0]] + s[1..];
      }
      r
  }

  /** `sort_values("TotalResources", ascending=False)`: a permutation of its
      input in non-increasing TotalResources order. */
  function SortDesc(s: seq<DistrictRow>): (r: seq<DistrictRow>)
    ensures SortedDesc(r)
    ensures multiset(r) == multiset(s)
  {
    if s == [] then []
    else
      assert s == [s[0]] + s[1..];
      InsertDesc(s[0], SortDesc(s[1..]))
  }

  lemma {:induction false} InsertDescSum(x: DistrictRow, s: seq<DistrictRow>)
    requires SortedDesc(s)
    ensures SumTotalResources(InsertDesc(x, s)) == x.totalResources + SumTotalResources(s)
  {
    var r := InsertDesc(x, s);
    if s == [] || x.totalResources >= s[0].totalResources {
      assert r[1..] == s;
    } else {
      assert r[1..] == InsertDesc(x, s[1..]);
      InsertDescSum(x, s[1..]);
    }
  }

  /** Sorting neither adds nor loses resources. */
  lemma {:induction false} SortDescSum(s: seq<DistrictRow>)
    ensures SumTotalResources(SortDesc(s)) == SumTotalResources(s)
  {
    if s != [] {
      SortDescSum(s[1..]);
      InsertDescSum(s[0], SortDesc(s[1..]));
    }
  }

  lemma {:induction false} InsertDescDistinct(x: DistrictRow, s: seq<DistrictRow>)
    requires SortedDesc(s) && DistinctDistricts(s)
    requires forall i :: 0 <= i < |s| ==> s[i].district != x.district
    ensures DistinctDistricts(InsertDesc(x, s))
  {
    var r := InsertDesc(x, s);
    if s != [] && x.totalResources < s[0].totalResources {
      var rest := InsertDesc(x, s[1..]);
      assert r == [s[0]] + rest;
      InsertDescDistinct(x, s[1..]);
      forall j | 0 <= j < |rest| ensures rest[j].district != s[0].district {
        assert rest[j] in multiset(s[1..]) + multiset{x};
        if rest[j] != x {
          var m :| 0 <= m < |s[1..]| && s[1..][m] == rest[j];
          assert s[1..][m] == s[m + 1];
        }
      }
    }
  }

  /** Sorting a table with one row per district keeps one row per district. */
  lemma {:induction false} SortDescDistinct(s: seq<DistrictRow>)
    requires DistinctDistricts(s)
    ensures DistinctDistricts(SortDesc(s))
  {
    if s != [] {
      var rest := SortDesc(s[1..]);
      SortDescDistinct(s[1..]);
      forall j | 0 <= j < |rest| ensures rest[j].district != s[0].district {
        assert rest[j] in multiset(s[1..]);
        var m :| 0 <= m < |s[1..]| && s[1..][m] == rest[j];
        assert s[1..][m] == s[m + 1];
      }
      InsertDescDistinct(s[0], rest);
    }
  }

  /** `df_agg` before sorting: the filtered view grouped by District (in
      ascending District order), with the TotalResources column added. */
  function DistrictTable(view: seq<Row>): seq<DistrictRow>
  {
    var g := GroupBy(view, [District]);
    assert forall i :: 0 <= i < |g| ==> |g[i].key| == 1 by {
      forall i | 0 <= i < |g| ensures |g[i].key| == 1 {
        GroupAt(view, [District], i);
      }
    }
    WithTotalResources(g)
  }

  /** `df_agg` after `sort_values("TotalResources", ascending=False)`. */
  function AggregateByDistrict(view: seq<Row>): seq<DistrictRow>
  {
    SortDesc(DistrictTable(view))
  }

  /** Each row of the unsorted table is the district of some view row, with
      that district's column sums and their total. */
  lemma DistrictTableRow(view: seq<Row>, m: nat)
    requires m < |DistrictTable(view)|
    ensures DistrictTable(view)[m].district in ColumnValues(view, District)
    ensures DistrictTable(view)[m].counts
         == SumCounts(Select(view, [District], [DistrictTable(view)[m].district]))
    ensures DistrictTable(view)[m].totalResources == Total(DistrictTable(view)[m].counts)
  {
    var g := GroupBy(view, [District]);
    GroupAt(view, [District], m);
    var k := g[m].key;
    assert k == [k[0]];
    var j :| 0 <= j < |view| && KeyOf(view[j], [District]) == k;
    SingleKey(view[j], District, k[0]);
    assert ColumnValues(view, District)[j] == k[0];
  }

  /** Every district of the view has a row in the unsorted table. */
  lemma DistrictTableCovers(view: seq<Row>, d: string)
    requires d in ColumnValues(view, District)
    ensures d in Districts(DistrictTable(view))
  {
    var g := GroupBy(view, [District]);
    var j :| 0 <= j < |view| && ColumnValues(view, District)[j] == d;
    SingleKey(view[j], District, d);
    assert [d] in RowKeys(view, [District]);
    var m :| 0 <= m < |g| && g[m].key == [d];
    assert Districts(DistrictTable(view))[m] == d;
  }

  /** The unsorted table has no district twice (the group keys ascend strictly). */
  lemma DistrictTableDistinct(view: seq<Row>)
    ensures DistinctDistricts(DistrictTable(view))
  {
    var g := GroupBy(view, [District]);
    var w := DistrictTable(view);
    forall i, j | 0 <= i < j < |w| ensures w[i].district != w[j].district {
      GroupAt(view, [District], i);
      GroupAt(view, [District], j);
      if w[i].district == w[j].district {
        assert g[i].key == [w[i].district] == g[j].key;
        KeyLtIrreflexive(g[i].key);
      }
    }
  }

  /** No district has two aggregated rows. */
  lemma AggregateDistinct(view: seq<Row>)
    ensures DistinctDistricts(AggregateByDistrict(view))
  {
    DistrictTableDistinct(view);
    SortDescDistinct(DistrictTable(view));
  }

  /** A district has an aggregated row exactly when some row of the view
      carries it. */
  lemma AggregateDistricts(view: seq<Row>)
    ensures forall d :: d in Districts(AggregateByDistrict(view)) <==> d in ColumnValues(view, District)
  {
    forall d | d in Districts(AggregateByDistrict(view)) ensures d in ColumnValues(view, District) {
      AggregateRowFromView(view, d);
    }
    forall d | d in ColumnValues(view, District) ensures d in Districts(AggregateByDistrict(view)) {
      AggregateRowForDistrict(view, d);
    }
  }

  lemma AggregateRowFromView(view: seq<Row>, d: string)
    requires d in Districts(AggregateByDistrict(view))
    ensures d in ColumnValues(view, District)
  {
    var w := DistrictTable(view);
    var out := AggregateByDistrict(view);
    var i :| 0 <= i < |out| && Districts(out)[i] == d;
    assert out[i] in multiset(w);
    var m :| 0 <= m < |w| && w[m] == out[i];
    DistrictTableRow(view, m);
  }

  lemma AggregateRowForDistrict(view: seq<Row>, d: string)
    requires d in ColumnValues(view, District)
    ensures d in Districts(AggregateByDistrict(view))
  {
    var w := DistrictTable(view);
    var out := AggregateByDistrict(view);
    DistrictTableCovers(view, d);
    var m :| 0 <= m < |w| && Districts(w)[m] == d;
    assert w[m] in multiset(out);
    var i :| 0 <= i < |out| && out[i] == w[m];
    assert Districts(out)[i] == d;
  }

  /** Each aggregated row holds, in each count column, the sum of that column
      over the view's rows for its district, and TotalResources is the sum of
      its four counts. */
  lemma AggregateSums(view: seq<Row>)
    ensures forall i :: 0 <= i < |AggregateByDistrict(view)| ==>
      var r := AggregateByDistrict(view)[i];
      && r.counts == SumCounts(Select(view, [District], [r.district]))
      && r.totalResources == r.counts.publicSchools + r.counts.privateSchools
                             + r.counts.universities + r.counts.vocationalInstitutes
  {
    var w := DistrictTable(view);
    var out := AggregateByDistrict(view);
    forall i | 0 <= i < |out|
      ensures out[i].counts == SumCounts(Select(view, [District], [out[i].district]))
      ensures out[i].totalResources == Total(out[i].counts)
    {
      assert out[i] in multiset(w);
      var m :| 0 <= m < |w| && w[m] == out[i];
      DistrictTableRow(view, m);
    }
  }

  lemma {:induction false} WithTotalResourcesSum(g: seq<Group>)
    requires forall i :: 0 <= i < |g| ==> |g[i].key| == 1
    ensures SumTotalResources(WithTotalResources(g)) == Total(SumGroups(g))
  {
    if g != [] {
      WithTotalResourcesSum(g[1..]);
      assert WithTotalResources(g)[1..] == WithTotalResources(g[1..]);
    }
  }

  /** Summing TotalResources over the aggregated rows gives the four count
      columns of the view added together; an empty view gives no rows. */
  lemma AggregateTotal(view: seq<Row>)
    ensures SumTotalResources(AggregateByDistrict(view)) == Total(SumCounts(view))
    ensures AggregateByDistrict(view) == [] <==> view == []
  {
    var g := GroupBy(view, [District]);
    forall m | 0 <= m < |g| ensures |g[m].key| == 1 {
      GroupAt(view, [District], m);
    }
    var w := DistrictTable(view);
    SortDescSum(w);
    WithTotalResourcesSum(g);
    if view != [] {
      assert KeyOf(view[0], [District]) in RowKeys(view, [District]);
      assert |Keys(g)| > 0;
      assert |multiset(AggregateByDistrict(view))| == |w| > 0;
    }
  }
}
