/** pandas' `groupby(cols).agg({... : "sum"}).reset_index()` over the four count
    columns: one group per distinct key, keys in ascending order (groupby's
    default `sort=True`), each group holding the column sums of its rows. */
module Grouping {
  import opened Frame
  import opened Order
  import opened FilterResolver

  datatype Group = Group(key: seq<string>, counts: Counts)

  /** Strictly ascending keys; in particular no key occurs twice. */
  predicate Ascending(g: seq<Group>)
  {
    forall i, j :: 0 <= i < j < |g| ==> KeyLt(g[i].key, g[j].key)
  }

  function Keys(g: seq<Group>): set<seq<string>>
  {
    set i | 0 <= i < |g| :: g[i].key
  }

  /** The distinct keys the rows of a table carry in the columns `cols`. */
  function RowKeys(rows: seq<Row>, cols: seq<Column>): set<seq<string>>
  {
    set i | 0 <= i < |rows| :: KeyOf(rows[i], cols)
  }

  /** The counts stored under key `k`, zero when there is no such group. */
  function Lookup(g: seq<Group>, k: seq<string>): Counts
  {
    if g == [] then Zero
    else if g[0].key == k then g[0].counts
    else Lookup(g[1..], k)
  }

  /** Column sums over all groups (`sum()` of the grouped frame). */
  function SumGroups(g: seq<Group>): Counts
  {
    if g == [] then Zero else Add(g[0].counts, SumGroups(g[1..]))
  }

  lemma KeysCons(x: Group, g: seq<Group>)
    ensures Keys([x] + g) == {x.key} + Keys(g)
  {
    var s := [x] + g;
    forall k | k in Keys(g) ensures k in Keys(s) {
      var i :| 0 <= i < |g| && g[i].key == k;
      assert s[i + 1] == g[i];
    }
    forall k | k in Keys(s) ensures k in {x.key} + Keys(g) {
      var i :| 0 <= i < |s| && s[i].key == k;
      if i > 0 {
        assert s[i] == g[i - 1];
      }
    }
    assert s[0] == x;
  }

  lemma RowKeysCons(rows: seq<Row>, cols: seq<Column>)
    requires rows != []
    ensures RowKeys(rows, cols) == {KeyOf(rows[0], cols)} + RowKeys(rows[1..], cols)
  {
    var rest := rows[1..];
    forall k | k in RowKeys(rest, cols) ensures k in RowKeys(rows, cols) {
      var i :| 0 <= i < |rest| && KeyOf(rest[i], cols) == k;
      assert rows[i + 1] == rest[i];
    }
    forall k | k in RowKeys(rows, cols) ensures k in {KeyOf(rows[0], cols)} + RowKeys(rest, cols) {
      var i :| 0 <= i < |rows| && KeyOf(rows[i], cols) == k;
      if i > 0 {
        assert rows[i] == rest[i - 1];
      }
    }
  }

  lemma {:induction false} LookupAbsent(g: seq<Group>, k: seq<string>)
    requires k !in Keys(g)
    ensures Lookup(g, k) == Zero
  {
    if g != [] {
      assert g[0].key in Keys(g);
      KeysCons(g[0], g[1..]);
      assert g == [g[0]] + g[1..];
      LookupAbsent(g[1..], k);
    }
  }

  /** Adds one row (its key `k` and counts `c`) to a grouped table: the
      group with key `k` grows by `c`, or a new group is placed before the
      first larger key. */
  function Insert(g: seq<Group>, k: seq<string>, c: Counts): (r: seq<Group>)
    ensures Keys(r) == Keys(g) + {k}
  {
    if g == [] then
      KeysCons(Group(k, c), []);
      [Group(k, c)]
    else if g[0].key == k then
      KeysCons(Group(k, Add(g[0].counts, c)), g[1..]);
      KeysCons(g[0], g[1..]);
      assert g == [g[0]] + g[1..];
      [Group(k, Add(g[0].counts, c))] + g[1..]
    else if KeyLt(k, g[0].key) then
      KeysCons(Group(k, c), g);
      [Group(k, c)] + g
    else
      var rest := Insert(g[1..], k, c);
      KeysCons(g[0], rest);
      KeysCons(g[0], g[1..]);
      assert g == [g[0]] + g[1..];
      [g[0]] + rest
  }

  /** A key smaller than the first key of an ascending table is smaller than
      all of its keys, so the table does not hold it. */
  lemma BelowAll(g: seq<Group>, k: seq<string>)
    requires Ascending(g) && g != [] && KeyLt(k, g[0].key)
    ensures forall j :: 0 <= j < |g| ==> KeyLt(k, g[j].key)
    ensures k !in Keys(g)
  {
    forall j | 1 <= j < |g| ensures KeyLt(k, g[j].key) {
      KeyLtTransitive(k, g[0].key, g[j].key);
    }
    if k in Keys(g) {
      KeyLtIrreflexive(k);
    }
  }

  /** A key past the first key of an ascending table lands behind it: the
      first key stays below every key of the rest after the insertion. */
  lemma InsertAbove(g: seq<Group>, k: seq<string>, c: Counts)
    requires Ascending(g) && g != [] && g[0].key != k && !KeyLt(k, g[0].key)
    ensures forall j :: 0 <= j < |Insert(g[1..], k, c)| ==> KeyLt(g[0].key, Insert(g[1..], k, c)[j].key)
  {
    var rest := Insert(g[1..], k, c);
    KeyLtTotal(k, g[0].key);
    forall j | 0 <= j < |rest| ensures KeyLt(g[0].key, rest[j].key) {
      assert rest[j].key in Keys(rest);
      if rest[j].key != k {
        var m :| 0 <= m < |g[1..]| && g[1..][m].key == rest[j].key;
        assert g[1..][m] == g[m + 1];
      }
    }
  }

  /** Inserting keeps the keys strictly ascending. */
  lemma {:induction false} InsertAscending(g: seq<Group>, k: seq<string>, c: Counts)
    requires Ascending(g)
    ensures Ascending(Insert(g, k, c))
  {
    if g != [] && g[0].key != k {
      var r := Insert(g, k, c);
      if KeyLt(k, g[0].key) {
        BelowAll(g, k);
        forall i, j | 0 <= i < j < |r| ensures KeyLt(r[i].key, r[j].key) {
          assert r[j] == g[j - 1];
          if i > 0 {
            assert r[i] == g[i - 1];
          }
        }
      } else {
        var rest := Insert(g[1..], k, c);
        InsertAscending(g[1..], k, c);
        InsertAbove(g, k, c);
        forall i, j | 0 <= i < j < |r| ensures KeyLt(r[i].key, r[j].key) {
          assert r[j] == rest[j - 1];
          if i > 0 {
            assert r[i] == rest[i - 1];
          }
        }
      }
    }
  }

  /** Inserting adds `c` under key `k` and changes no other key. */
  lemma {:induction false} InsertLookup(g: seq<Group>, k: seq<string>, c: Counts, k': seq<string>)
    requires Ascending(g)
    ensures Lookup(Insert(g, k, c), k') == if k' == k then Add(Lookup(g, k'), c) else Lookup(g, k')
  {
    if g == [] {
      AddZero(c);
    } else if g[0].key == k {
    } else if KeyLt(k, g[0].key) {
      var r := Insert(g, k, c);
      assert r[1..] == g;
      if k' == k {
        BelowAll(g, k);
        LookupAbsent(g, k);
        AddZero(c);
      }
    } else {
      var r := Insert(g, k, c);
      assert r[1..] == Insert(g[1..], k, c);
      InsertLookup(g[1..], k, c, k');
    }
  }

  /** Inserting adds `c` to the grand totals. */
  lemma {:induction false} InsertSum(g: seq<Group>, k: seq<string>, c: Counts)
    ensures SumGroups(Insert(g, k, c)) == Add(SumGroups(g), c)
  {
    var r := Insert(g, k, c);
    if g == [] {
      assert r[1..] == [];
      AddZero(c);
    } else if g[0].key == k {
      assert r[1..] == g[1..];
    } else if KeyLt(k, g[0].key) {
      assert r[1..] == g;
    } else {
      assert r[1..] == Insert(g[1..], k, c);
      InsertSum(g[1..], k, c);
    }
  }

  /** The grouped table of `rows` by the columns `cols`: strictly ascending
      keys, exactly the keys the rows carry, and the same grand totals as
      the rows. */
  function GroupBy(rows: seq<Row>, cols: seq<Column>): (r: seq<Group>)
    ensures Ascending(r)
    ensures Keys(r) == RowKeys(rows, cols)
    ensures SumGroups(r) == SumCounts(rows)
  {
    if rows == [] then []
    else
      var rest := GroupBy(rows[1..], cols);
      RowKeysCons(rows, cols);
      InsertAscending(rest, KeyOf(rows[0], cols), rows[0].counts);
      InsertSum(rest, KeyOf(rows[0], cols), rows[0].counts);
      Insert(rest, KeyOf(rows[0], cols), rows[0].counts)
  }

  /** Under each key, the grouped table holds the column sums of exactly the
      rows carrying that key (zero for a key no row carries). */
  lemma {:induction false} GroupSums(rows: seq<Row>, cols: seq<Column>, k: seq<string>)
    ensures Lookup(GroupBy(rows, cols), k) == SumCounts(Select(rows, cols, k))
  {
    if rows != [] {
      var rest := rows[1..];
      var key0, c := KeyOf(rows[0], cols), rows[0].counts;
      var sel := Select(rest, cols, k);
      GroupSums(rest, cols, k);
      assert GroupBy(rows, cols) == Insert(GroupBy(rest, cols), key0, c);
      InsertLookup(GroupBy(rest, cols), key0, c, k);
      if key0 == k {
        assert Select(rows, cols, k) == [rows[0]] + sel;
        SumCountsAppend([rows[0]], sel);
        assert [rows[0]][1..] == [];
        AddZero(c);
        AddComm(c, SumCounts(sel));
      } else {
        assert Select(rows, cols, k) == sel;
      }
    }
  }

  /** In an ascending table, looking up a group's key finds that group. */
  lemma {:induction false} LookupAt(g: seq<Group>, i: nat)
    requires Ascending(g) && i < |g|
    ensures Lookup(g, g[i].key) == g[i].counts
  {
    if i > 0 {
      if g[0].key == g[i].key {
        KeyLtIrreflexive(g[0].key);
      }
      assert g[1..][i - 1] == g[i];
      LookupAt(g[1..], i - 1);
    }
  }

  /** Every group of `GroupBy(rows, cols)` comes from a row, its key has one
      entry per grouping column, and its counts are the sums over exactly the
      rows carrying its key. */
  lemma GroupAt(rows: seq<Row>, cols: seq<Column>, i: nat)
    requires i < |GroupBy(rows, cols)|
    ensures exists j :: 0 <= j < |rows| && KeyOf(rows[j], cols) == GroupBy(rows, cols)[i].key
    ensures |GroupBy(rows, cols)[i].key| == |cols|
    ensures GroupBy(rows, cols)[i].counts == SumCounts(Select(rows, cols, GroupBy(rows, cols)[i].key))
  {
    var g := GroupBy(rows, cols);
    assert g[i].key in Keys(g);
    LookupAt(g, i);
    GroupSums(rows, cols, g[i].key);
  }
}
