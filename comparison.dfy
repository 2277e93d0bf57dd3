/** The comparison curve: the engine evaluated across an ordered range of
    collections samples, and the choice of the sample nearest to the current
    collections value, whose row is highlighted on the chart. */
module Comparison {
  import opened Engine

  /** One row of `comparison_data` (app.py:256-261): a collections sample and
      the total of each formula there. */
  datatype Row = Row(collections: real, total1: real, total2: real, total3: real)

  /** The row the sweep records for one sample: the three totals of a full
      evaluation at that sample. */
  function RowAt(p1: Params, p2: Params, p3: Params, sample: real): (row: Row)
    ensures row.collections == sample
    ensures row.total1 == Compute(p1, sample).total
    ensures row.total2 == Compute(p2, sample).total
    ensures row.total3 == Compute(p3, sample).total
  {
    var results := ComputeAll(p1, p2, p3, sample);
    Row(sample, results.formula1.total, results.formula2.total, results.formula3.total)
  }

  /** `rows` holds, in sample order, exactly one row per sample, each the
      pointwise evaluation at that sample. */
  predicate RowsMatch(p1: Params, p2: Params, p3: Params, samples: seq<real>, rows: seq<Row>) {
    && |rows| == |samples|
    && forall i :: 0 <= i < |rows| ==> rows[i] == RowAt(p1, p2, p3, samples[i])
  }

  /** The loop that builds `comparison_data`, one appended row per sample. */
  method Sweep(p1: Params, p2: Params, p3: Params, samples: seq<real>) returns (rows: seq<Row>)
    ensures |rows| == |samples|
    ensures forall i :: 0 <= i < |rows| ==> rows[i] == RowAt(p1, p2, p3, samples[i])
  {
    rows := [];
    for i := 0 to |samples|
      invariant |rows| == i
      invariant forall k :: 0 <= k < i ==> rows[k] == RowAt(p1, p2, p3, samples[k])
    {
      var results := ComputeAll(p1, p2, p3, samples[i]);
      rows := rows + [Row(samples[i], results.formula1.total, results.formula2.total, results.formula3.total)];
    }
  }

  predicate Ascending(samples: seq<real>) {
    forall i, j :: 0 <= i <= j < |samples| ==> samples[i] <= samples[j]
  }

  predicate StrictlyAscending(samples: seq<real>) {
    forall i, j :: 0 <= i < j < |samples| ==> samples[i] < samples[j]
  }

  /** Over ascending samples, each of the three curves never goes down. */
  lemma CurvesNonDecreasing(p1: Params, p2: Params, p3: Params, samples: seq<real>, rows: seq<Row>)
    requires p1.bonusPercentage >= 0.0 && p2.bonusPercentage >= 0.0 && p3.bonusPercentage >= 0.0
    requires Ascending(samples)
    requires RowsMatch(p1, p2, p3, samples, rows)
    ensures forall i, j :: 0 <= i <= j < |rows| ==> rows[i].total1 <= rows[j].total1
    ensures forall i, j :: 0 <= i <= j < |rows| ==> rows[i].total2 <= rows[j].total2
    ensures forall i, j :: 0 <= i <= j < |rows| ==> rows[i].total3 <= rows[j].total3
  {
    forall i, j | 0 <= i <= j < |rows|
      ensures rows[i].total1 <= rows[j].total1
      ensures rows[i].total2 <= rows[j].total2
      ensures rows[i].total3 <= rows[j].total3
    {
      TotalMonotone(p1, samples[i], samples[j]);
      TotalMonotone(p2, samples[i], samples[j]);
      TotalMonotone(p3, samples[i], samples[j]);
    }
  }

  /** Every point of every curve lies between its base salary and the base
      salary plus the collections above its threshold. */
  lemma CurvesBounded(p1: Params, p2: Params, p3: Params, samples: seq<real>, rows: seq<Row>)
    requires ValidParams(p1) && ValidParams(p2) && ValidParams(p3)
    requires RowsMatch(p1, p2, p3, samples, rows)
    ensures forall i :: 0 <= i < |rows| ==>
      p1.baseSalary <= rows[i].total1 <= p1.baseSalary + ClampAtZero(samples[i] - Threshold(p1))
    ensures forall i :: 0 <= i < |rows| ==>
      p2.baseSalary <= rows[i].total2 <= p2.baseSalary + ClampAtZero(samples[i] - Threshold(p2))
    ensures forall i :: 0 <= i < |rows| ==>
      p3.baseSalary <= rows[i].total3 <= p3.baseSalary + ClampAtZero(samples[i] - Threshold(p3))
  {
    forall i | 0 <= i < |rows|
      ensures p1.baseSalary <= rows[i].total1 <= p1.baseSalary + ClampAtZero(samples[i] - Threshold(p1))
      ensures p2.baseSalary <= rows[i].total2 <= p2.baseSalary + ClampAtZero(samples[i] - Threshold(p2))
      ensures p3.baseSalary <= rows[i].total3 <= p3.baseSalary + ClampAtZero(samples[i] - Threshold(p3))
    {
      TotalBounds(p1, samples[i]);
      TotalBounds(p2, samples[i]);
      TotalBounds(p3, samples[i]);
    }
  }

  /** `abs(a - b)`. */
  function Distance(a: real, b: real): (d: real)
    ensures d >= 0.0
    ensures d == a - b || d == b - a
  {
    if a >= b then a - b else b - a
  }

  /** `argmin(abs(samples - target))`: the first index at which the distance
      to the target is smallest. */
  function NearestIndex(samples: seq<real>, target: real): (k: nat)
    requires |samples| > 0
    ensures k < |samples|
    ensures forall j :: 0 <= j < |samples| ==>
      Distance(samples[k], target) <= Distance(samples[j], target)
    ensures forall j :: 0 <= j < k ==>
      Distance(samples[k], target) < Distance(samples[j], target)
    decreases |samples|
  {
    if |samples| == 1 then 0
    else
      var last := |samples| - 1;
      var k := NearestIndex(samples[..last], target);
      if Distance(samples[last], target) < Distance(samples[k], target) then last else k
  }

  /** The minimal distance and the first-among-ties rule fix the index uniquely. */
  lemma NearestIndexUnique(samples: seq<real>, target: real, k: nat)
    requires k < |samples|
    requires forall j :: 0 <= j < |samples| ==>
      Distance(samples[k], target) <= Distance(samples[j], target)
    requires forall j :: 0 <= j < k ==>
      Distance(samples[k], target) < Distance(samples[j], target)
    ensures k == NearestIndex(samples, target)
  {
  }

  /** The rows whose collections equal `x`, in order: the DataFrame selection
      `comparison_df.loc[comparison_df["Net Collections"] == x]`. */
  function SelectRows(rows: seq<Row>, x: real): (selected: seq<Row>)
    ensures |selected| <= |rows|
    ensures forall row :: row in selected ==> row in rows && row.collections == x
    ensures forall i :: 0 <= i < |rows| && rows[i].collections == x ==> rows[i] in selected
    ensures forall row {:trigger multiset(selected)[row]} :: multiset(selected)[row] == if row.collections == x then multiset(rows)[row] else 0
  {
    if rows == [] then []
    else
      assert rows == [rows[0]] + rows[1..];
      (if rows[0].collections == x then [rows[0]] else []) + SelectRows(rows[1..], x)
  }

  /** The selection keeps table order: selecting from two tables laid end to
      end gives the first table's selection followed by the second's. */
  lemma {:induction false} SelectConcat(a: seq<Row>, b: seq<Row>, x: real)
    ensures SelectRows(a + b, x) == SelectRows(a, x) + SelectRows(b, x)
  {
    if a != [] {
      var head := if a[0].collections == x then [a[0]] else [];
      assert (a + b)[0] == a[0] && (a + b)[1..] == a[1..] + b;
      SelectConcat(a[1..], b, x);
      calc {
        SelectRows(a + b, x);
        head + SelectRows(a[1..] + b, x);
        head + (SelectRows(a[1..], x) + SelectRows(b, x));
        (head + SelectRows(a[1..], x)) + SelectRows(b, x);
        SelectRows(a, x) + SelectRows(b, x);
      }
    } else {
      assert a + b == b;
    }
  }

  /** No row has collections `x`: the selection is empty. */
  lemma {:induction false} SelectNone(rows: seq<Row>, x: real)
    requires forall i :: 0 <= i < |rows| ==> rows[i].collections != x
    ensures SelectRows(rows, x) == []
  {
    if rows != [] {
      SelectNone(rows[1..], x);
    }
  }

  /** When no other row has the same collections as row k, the selection on
      that value is exactly row k. */
  lemma {:induction false} SelectUnique(rows: seq<Row>, k: nat)
    requires k < |rows|
    requires forall i :: 0 <= i < |rows| && i != k ==> rows[i].collections != rows[k].collections
    ensures SelectRows(rows, rows[k].collections) == [rows[k]]
  {
    var x := rows[k].collections;
    if k == 0 {
      SelectNone(rows[1..], x);
    } else {
      SelectUnique(rows[1..], k - 1);
    }
  }

  /** The highlighted point (app.py:337): over strictly ascending samples, the
      selection on the nearest sample is the single row of that sample, and it
      holds the totals the engine computes there. */
  lemma CurrentPoint(p1: Params, p2: Params, p3: Params, samples: seq<real>, rows: seq<Row>, current: real)
    requires |samples| > 0
    requires StrictlyAscending(samples)
    requires RowsMatch(p1, p2, p3, samples, rows)
    ensures var k := NearestIndex(samples, current);
      SelectRows(rows, samples[k]) == [RowAt(p1, p2, p3, samples[k])]
  {
    var k := NearestIndex(samples, current);
    forall i | 0 <= i < |rows| && i != k
      ensures rows[i].collections != rows[k].collections
    {
      if i < k { assert samples[i] < samples[k]; } else { assert samples[k] < samples[i]; }
    }
    SelectUnique(rows, k);
  }

  /** A current value already on the grid selects its own sample. */
  lemma NearestOfGridValue(samples: seq<real>, k: nat)
    requires k < |samples|
    requires StrictlyAscending(samples)
    ensures NearestIndex(samples, samples[k]) == k
  {
    forall j | 0 <= j < k
      ensures Distance(samples[k], samples[k]) < Distance(samples[j], samples[k])
    {
      assert samples[j] < samples[k];
    }
    NearestIndexUnique(samples, samples[k], k);
  }
}
