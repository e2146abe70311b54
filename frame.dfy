/** The education table as the dashboard sees it: one record per row of the
    merged CSV, reduced to the two geographic key columns and the four
    resource-count columns. */
module Frame {

  datatype Option<+T> = None | Some(value: T)

  /** The four resource-count columns of a row (or of a sum of rows). */
  datatype Counts = Counts(
    publicSchools: nat,
    privateSchools: nat,
    universities: nat,
    vocationalInstitutes: nat)

  const Zero := Counts(0, 0, 0, 0)

  /** Column-wise addition, as pandas' "sum" aggregation does per column. */
  function Add(a: Counts, b: Counts): Counts
  {
    Counts(a.publicSchools + b.publicSchools,
           a.privateSchools + b.privateSchools,
           a.universities + b.universities,
           a.vocationalInstitutes + b.vocationalInstitutes)
  }

  lemma AddZero(c: Counts)
    ensures Add(Zero, c) == c && Add(c, Zero) == c
  {
  }

  lemma AddComm(a: Counts, b: Counts)
    ensures Add(a, b) == Add(b, a)
  {
  }

  /** The derived TotalResources figure: the four counts added together. */
  function Total(c: Counts): nat
  {
    c.publicSchools + c.privateSchools + c.universities + c.vocationalInstitutes
  }

  /** The two string-valued key columns a filter or a group-by can name. */
  datatype Column = Governorate | District

  datatype Row = Row(governorate: string, district: string, counts: Counts)

  function ValueOf(r: Row, c: Column): string
  {
    match c
    case Governorate => r.governorate
    case District => r.district
  }

  /** The values of the columns `cols` in row `r`, in the order of `cols`:
      the group key pandas forms for `groupby(cols)`. */
  function KeyOf(r: Row, cols: seq<Column>): (k: seq<string>)
    ensures |k| == |cols|
    ensures forall i :: 0 <= i < |cols| ==> k[i] == ValueOf(r, cols[i])
  {
    if cols == [] then [] else [ValueOf(r, cols[0])] + KeyOf(r, cols[1..])
  }

  /** Column-wise sums of the four counts over a sequence of rows; an empty
      table sums to zero in every column. */
  function SumCounts(rows: seq<Row>): Counts
  {
    if rows == [] then Zero else Add(rows[0].counts, SumCounts(rows[1..]))
  }

  lemma {:induction false} SumCountsAppend(a: seq<Row>, b: seq<Row>)
    ensures SumCounts(a + b) == Add(SumCounts(a), SumCounts(b))
  {
    if a == [] {
      assert a + b == b;
      AddZero(SumCounts(b));
    } else {
      assert (a + b)[0] == a[0];
      assert (a + b)[1..] == a[1..] + b;
      SumCountsAppend(a[1..], b);
    }
  }
}
