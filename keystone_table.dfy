/** The footer of one dungeon's keystone table: the average of a metric over
    the runs completed in time (`calcAvgTimedMetric`) and the share of runs
    completed in time. The numbers are modelled before `toLocaleString`
    formats them. */
module KeystoneTable {
  import opened Wrappers
  import opened JsMath
  import opened RunIndex
  import opened Pipeline

  /** The three averaged columns. */
  datatype Column = DpsColumn | HpsColumn | DeathsColumn

  function MetricOf(r: Row, col: Column): int {
    match col
    case DpsColumn => r.dps
    case HpsColumn => r.hps
    case DeathsColumn => r.deaths
  }

  /** `reports.filter((report) => report.inTime > 0)`. */
  function TimedKeys(rows: seq<Row>): (t: seq<Row>)
    ensures |t| <= |rows|
  {
    if rows == [] then []
    else (if rows[0].inTime > 0 then [rows[0]] else []) + TimedKeys(rows[1..])
  }

  /** The filter keeps every timed run, as often as it occurs, and nothing else. */
  lemma {:induction false} TimedKeysSpec(rows: seq<Row>)
    ensures forall x :: multiset(TimedKeys(rows))[x] == if x.inTime > 0 then multiset(rows)[x] else 0
  {
    if rows != [] {
      TimedKeysSpec(rows[1..]);
      assert rows == [rows[0]] + rows[1..];
    }
  }

  /** `timedKeys.reduce((carry, report) => carry + report[metric], 0)`. */
  function SumMetric(rows: seq<Row>, col: Column): (r: int)
    ensures |rows| == 1 ==> r == MetricOf(rows[0], col)
  {
    if rows == [] then 0 else MetricOf(rows[0], col) + SumMetric(rows[1..], col)
  }

  /** `calcAvgTimedMetric`: 0 when no run was timed, otherwise the mean of
      the column over the timed runs, rounded. */
  function AvgTimedMetric(rows: seq<Row>, col: Column): (r: int)
    ensures |TimedKeys(rows)| == 0 ==> r == 0
    ensures (forall k :: 0 <= k < |rows| ==> rows[k].inTime <= 0) ==> r == 0
    ensures var timed := TimedKeys(rows);
            var n, sum := |timed|, SumMetric(timed, col);
            n > 0 ==> 2 * n * r - n <= 2 * sum < 2 * n * r + n
  {
    var timed := TimedKeys(rows);
    TimedKeysCount(rows);
    if |timed| == 0 then 0 else RoundDiv(SumMetric(timed, col), |timed|)
  }

  /** The footer's share of timed runs, in percent, rounded to the nearest
      integer (halves up). The source divides by the number of runs, so an
      empty table shows `NaN`: None. */
  function InTimePercent(rows: seq<Row>): (r: Option<int>)
    ensures r.None? <==> |rows| == 0
    ensures r.Some? ==> 0 <= r.value <= 100
    ensures r.Some? ==> var n, t := |rows|, |TimedKeys(rows)|;
                        2 * n * r.value - n <= 200 * t < 2 * n * r.value + n
  {
    if |rows| == 0 then None
    else
      var timed := |TimedKeys(rows)|;
      RoundDivBetween(100 * timed, |rows|, 0, 100);
      Some(RoundDiv(100 * timed, |rows|))
  }

  /** A table of timed runs only shows 100 %, one without any shows 0 %. */
  lemma InTimePercentExtremes(rows: seq<Row>)
    requires |rows| > 0
    ensures (forall k :: 0 <= k < |rows| ==> rows[k].inTime > 0) ==> InTimePercent(rows) == Some(100)
    ensures (forall k :: 0 <= k < |rows| ==> rows[k].inTime <= 0) ==> InTimePercent(rows) == Some(0)
  {
    TimedKeysCount(rows);
    RoundDivExact(100, |rows|);
    RoundDivExact(0, |rows|);
  }

  /** All runs timed keeps them all; none timed keeps none. */
  lemma {:induction false} TimedKeysCount(rows: seq<Row>)
    ensures (forall k :: 0 <= k < |rows| ==> rows[k].inTime > 0) ==> |TimedKeys(rows)| == |rows|
    ensures (forall k :: 0 <= k < |rows| ==> rows[k].inTime <= 0) ==> |TimedKeys(rows)| == 0
  {
    if rows != [] {
      TimedKeysCount(rows[1..]);
      assert forall k :: 1 <= k < |rows| ==> rows[1..][k - 1] == rows[k];
    }
  }

  /** Runs not completed in time play no part: filtering again changes
      nothing, and an untimed run added to the table leaves the average as
      it was. */
  lemma {:induction false} TimedKeysIdempotent(rows: seq<Row>)
    ensures TimedKeys(TimedKeys(rows)) == TimedKeys(rows)
  {
    if rows != [] {
      TimedKeysIdempotent(rows[1..]);
      var t := TimedKeys(rows[1..]);
      if rows[0].inTime > 0 {
        assert TimedKeys(rows) == [rows[0]] + t;
        assert ([rows[0]] + t)[0] == rows[0];
        assert ([rows[0]] + t)[1..] == t;
      } else {
        assert TimedKeys(rows) == [] + t == t;
      }
    }
  }

  /** Filtering distributes over concatenation. */
  lemma {:induction false} TimedKeysAppend(a: seq<Row>, b: seq<Row>)
    ensures TimedKeys(a + b) == TimedKeys(a) + TimedKeys(b)
  {
    if a == [] {
      assert a + b == b;
    } else {
      assert (a + b)[0] == a[0];
      assert (a + b)[1..] == a[1..] + b;
      TimedKeysAppend(a[1..], b);
      var head := if a[0].inTime > 0 then [a[0]] else [];
      assert head + (TimedKeys(a[1..]) + TimedKeys(b)) == head + TimedKeys(a[1..]) + TimedKeys(b);
    }
  }

  /** An untimed run does not change the average. */
  lemma AvgIgnoresUntimed(rows: seq<Row>, x: Row, col: Column)
    requires x.inTime <= 0
    ensures AvgTimedMetric(rows + [x], col) == AvgTimedMetric(rows, col)
    ensures AvgTimedMetric(TimedKeys(rows), col) == AvgTimedMetric(rows, col)
  {
    TimedKeysAppend(rows, [x]);
    assert [x][1..] == [];
    assert TimedKeys(rows) + [] == TimedKeys(rows);
    TimedKeysIdempotent(rows);
  }

  /** The sum over a concatenation is the sum of the sums. */
  lemma {:induction false} SumAppend(a: seq<Row>, b: seq<Row>, col: Column)
    ensures SumMetric(a + b, col) == SumMetric(a, col) + SumMetric(b, col)
  {
    if a == [] {
      assert a + b == b;
    } else {
      assert (a + b)[0] == a[0];
      assert (a + b)[1..] == a[1..] + b;
      SumAppend(a[1..], b, col);
    }
  }

  /** The sum is the sum without the `j`th run plus that run's value. */
  lemma SumRemoveAt(t: seq<Row>, j: nat, col: Column)
    requires j < |t|
    ensures SumMetric(t, col) == SumMetric(t[..j] + t[j + 1..], col) + MetricOf(t[j], col)
  {
    assert t == t[..j] + [t[j]] + t[j + 1..];
    SumAppend(t[..j] + [t[j]], t[j + 1..], col);
    SumAppend(t[..j], [t[j]], col);
    SumAppend(t[..j], t[j + 1..], col);
  }

  /** Summing is blind to order. */
  lemma {:induction false} SumPermutation(s: seq<Row>, t: seq<Row>, col: Column)
    requires multiset(s) == multiset(t)
    ensures SumMetric(s, col) == SumMetric(t, col)
    decreases |s|
  {
    if s == [] {
      assert |t| == |multiset(t)|;
    } else {
      assert s[0] in multiset(t);
      var j :| 0 <= j < |t| && t[j] == s[0];
      RemoveMatching(s, t, j);
      SumPermutation(s[1..], t[..j] + t[j + 1..], col);
      SumRemoveAt(t, j, col);
    }
  }

  /** The average does not depend on the order of the runs. */
  lemma AvgPermutation(s: seq<Row>, t: seq<Row>, col: Column)
    requires multiset(s) == multiset(t)
    ensures AvgTimedMetric(s, col) == AvgTimedMetric(t, col)
  {
    TimedKeysSpec(s);
    TimedKeysSpec(t);
    var ts, tt := TimedKeys(s), TimedKeys(t);
    assert multiset(ts) == multiset(tt);
    assert |ts| == |multiset(ts)| == |multiset(tt)| == |tt|;
    SumPermutation(ts, tt, col);
  }

  /** Bounds on every element bound the sum. */
  lemma {:induction false} SumBounds(rows: seq<Row>, col: Column, lo: int, hi: int)
    requires forall k :: 0 <= k < |rows| ==> lo <= MetricOf(rows[k], col) <= hi
    ensures lo * |rows| <= SumMetric(rows, col) <= hi * |rows|
  {
    if rows != [] {
      var t := rows[1..];
      forall k | 0 <= k < |t| ensures lo <= MetricOf(t[k], col) <= hi {
        assert t[k] == rows[k + 1];
      }
      SumBounds(t, col, lo, hi);
      assert SumMetric(rows, col) == MetricOf(rows[0], col) + SumMetric(t, col);
      MulSucc(lo, |t|);
      MulSucc(hi, |t|);
    }
  }

  /** One more factor adds one more summand. */
  lemma MulSucc(a: int, n: nat)
    ensures a * (n + 1) == a * n + a
  {
  }

  /** With at least one timed run, the average lies between the smallest
      and the largest value of the column among the timed runs. */
  lemma AvgBetween(rows: seq<Row>, col: Column, lo: int, hi: int)
    requires forall k :: 0 <= k < |rows| && rows[k].inTime > 0 ==> lo <= MetricOf(rows[k], col) <= hi
    requires exists k :: 0 <= k < |rows| && rows[k].inTime > 0
    ensures lo <= AvgTimedMetric(rows, col) <= hi
  {
    var timed := TimedKeys(rows);
    TimedKeysSpec(rows);
    forall k | 0 <= k < |timed| ensures lo <= MetricOf(timed[k], col) <= hi {
      assert timed[k] in multiset(timed);
      assert timed[k] in multiset(rows);
    }
    var k :| 0 <= k < |rows| && rows[k].inTime > 0;
    assert rows[k] in multiset(rows);
    assert rows[k] in multiset(timed);
    SumBounds(timed, col, lo, hi);
    RoundDivBetween(SumMetric(timed, col), |timed|, lo, hi);
  }
}
