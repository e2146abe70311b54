/** The filter resolver: the sidebar's option list for a geographic column and
    the filtered view the rest of the dashboard works on (app.py:53-66). */
module FilterResolver {
  import opened Frame

  /** The rows whose values in `cols` equal `key`, in their original order:
      the boolean-mask selection `df[df[col] == value]`. */
  function Select(rows: seq<Row>, cols: seq<Column>, key: seq<string>): (r: seq<Row>)
    ensures |r| <= |rows|
    ensures forall i :: 0 <= i < |r| ==> KeyOf(r[i], cols) == key
  {
    if rows == [] then []
    else
      (if KeyOf(rows[0], cols) == key then [rows[0]] else []) + Select(rows[1..], cols, key)
  }

  /** Selection keeps every matching row, as often as it occurs, and no other. */
  lemma {:induction false} SelectCounts(rows: seq<Row>, cols: seq<Column>, key: seq<string>)
    ensures forall x ::
              multiset(Select(rows, cols, key))[x] == if KeyOf(x, cols) == key then multiset(rows)[x] else 0
  {
    if rows != [] {
      SelectCounts(rows[1..], cols, key);
      assert rows == [rows[0]] + rows[1..];
    }
  }

  /** Selection keeps the original order: it distributes over concatenation. */
  lemma {:induction false} SelectAppend(a: seq<Row>, b: seq<Row>, cols: seq<Column>, key: seq<string>)
    ensures Select(a + b, cols, key) == Select(a, cols, key) + Select(b, cols, key)
  {
    if a != [] {
      var head := if KeyOf(a[0], cols) == key then [a[0]] else [];
      assert (a + b)[0] == a[0];
      assert (a + b)[1..] == a[1..] + b;
      assert Select(a + b, cols, key) == head + Select(a[1..] + b, cols, key);
      SelectAppend(a[1..], b, cols, key);
      assert Select(a, cols, key) == head + Select(a[1..], cols, key);
      assert head + (Select(a[1..], cols, key) + Select(b, cols, key))
          == (head + Select(a[1..], cols, key)) + Select(b, cols, key);
    } else {
      assert a + b == b;
    }
  }

  /** A mask that every row passes leaves the table unchanged. */
  lemma {:induction false} SelectAll(rows: seq<Row>, cols: seq<Column>, key: seq<string>)
    requires forall i :: 0 <= i < |rows| ==> KeyOf(rows[i], cols) == key
    ensures Select(rows, cols, key) == rows
  {
    if rows != [] {
      SelectAll(rows[1..], cols, key);
      assert rows == [rows[0]] + rows[1..];
    }
  }

  /** A one-column key equals a one-value key exactly when the column holds that value. */
  lemma SingleKey(r: Row, c: Column, v: string)
    ensures KeyOf(r, [c]) == [v] <==> ValueOf(r, c) == v
  {
    var k := KeyOf(r, [c]);
    if ValueOf(r, c) == v {
      assert k == [v];
    }
  }

  /** The "Filter By" radio: everything, or one of the two geographic columns. */
  datatype GeoFilter = All | ByColumn(column: Column)

  /** Python truthiness of the selectbox's value: `None` and "" are false. */
  predicate Chosen(selected: Option<string>)
  {
    selected.Some? && selected.value != ""
  }

  predicate Applies(filter: GeoFilter, selected: Option<string>)
  {
    filter.ByColumn? && Chosen(selected)
  }

  /** The filtered view `df_plot`: the whole table unless a column is chosen
      and a value is selected, otherwise the rows holding that value. */
  function Filter(rows: seq<Row>, filter: GeoFilter, selected: Option<string>): (view: seq<Row>)
    ensures !Applies(filter, selected) ==> view == rows
    ensures Applies(filter, selected) ==>
      forall i :: 0 <= i < |view| ==> ValueOf(view[i], filter.column) == selected.value
    ensures Applies(filter, selected) ==>
      forall x :: multiset(view)[x] == if ValueOf(x, filter.column) == selected.value then multiset(rows)[x] else 0
  {
    if Applies(filter, selected) then
      var view := Select(rows, [filter.column], [selected.value]);
      SelectCounts(rows, [filter.column], [selected.value]);
      assert forall x :: KeyOf(x, [filter.column]) == [selected.value] <==> ValueOf(x, filter.column) == selected.value by {
        forall x ensures KeyOf(x, [filter.column]) == [selected.value] <==> ValueOf(x, filter.column) == selected.value {
          SingleKey(x, filter.column, selected.value);
        }
      }
      view
    else
      rows
  }

  /** The values of one column, row by row. */
  function ColumnValues(rows: seq<Row>, c: Column): (vs: seq<string>)
    ensures |vs| == |rows|
    ensures forall i :: 0 <= i < |rows| ==> vs[i] == ValueOf(rows[i], c)
  {
    if rows == [] then [] else [ValueOf(rows[0], c)] + ColumnValues(rows[1..], c)
  }

  predicate NoDuplicates(s: seq<string>)
  {
    forall i, j :: 0 <= i < j < |s| ==> s[i] != s[j]
  }

  /** pandas' `unique()`: each distinct value once, in order of first appearance. */
  function Unique(s: seq<string>): (u: seq<string>)
    ensures NoDuplicates(u)
    ensures forall x :: x in u <==> x in s
  {
    if s == [] then []
    else
      var u := Unique(s[..|s| - 1]);
      var last := s[|s| - 1];
      assert s == s[..|s| - 1] + [last];
      if last in u then u else u + [last]
  }

  /** The selectbox's option list `df[col].dropna().unique().tolist()`. */
  function Options(rows: seq<Row>, c: Column): seq<string>
  {
    Unique(ColumnValues(rows, c))
  }

  /** The options are duplicate-free and are exactly the values found in
      the column. */
  lemma OptionsAreColumnValues(rows: seq<Row>, c: Column)
    ensures NoDuplicates(Options(rows, c))
    ensures forall v :: v in Options(rows, c) <==> exists i :: 0 <= i < |rows| && ValueOf(rows[i], c) == v
  {
    var vs := ColumnValues(rows, c);
    forall v ensures v in vs <==> exists i :: 0 <= i < |rows| && ValueOf(rows[i], c) == v {
      if v in vs {
        var i :| 0 <= i < |vs| && vs[i] == v;
        assert ValueOf(rows[i], c) == v;
      }
    }
  }

  /** Position of the first occurrence of `x` in `s`. */
  function FirstIndex(s: seq<string>, x: string): (i: nat)
    requires x in s
    ensures i < |s| && s[i] == x
    ensures forall j :: 0 <= j < i ==> s[j] != x
  {
    if s[0] == x then 0 else 1 + FirstIndex(s[1..], x)
  }

  lemma {:induction false} FirstIndexAppend(s: seq<string>, t: seq<string>, x: string)
    requires x in s
    ensures FirstIndex(s + t, x) == FirstIndex(s, x)
  {
    var i := FirstIndex(s, x);
    assert (s + t)[i] == x;
  }

  /** `unique()` lists the values in the order in which they first appear. */
  lemma {:induction false} UniqueFirstAppearance(s: seq<string>)
    ensures forall i, j :: 0 <= i < j < |Unique(s)| ==>
      FirstIndex(s, Unique(s)[i]) < FirstIndex(s, Unique(s)[j])
  {
    if s != [] {
      var init := s[..|s| - 1];
      var last := s[|s| - 1];
      var u := Unique(init);
      assert s == init + [last];
      UniqueFirstAppearance(init);
      forall x | x in init ensures FirstIndex(s, x) == FirstIndex(init, x) {
        FirstIndexAppend(init, [last], x);
      }
      if last !in u {
        assert last !in init;
        assert FirstIndex(s, last) == |init|;
      }
    }
  }
}
