/** The three summary metrics over the selected rows: total trees, record
    count and the rainy-season percentage. */
module Metrics {
  import opened Optional
  import opened Sequences
  import opened Records
  import opened Seasons

  /** A row's share of the seedlings sum: a missing count is skipped. */
  function Contribution(row: Row): real
  {
    match row.seedlingsPlanted
    case Some(n) => n
    case None => 0.0
  }

  predicate HasSeedlings(row: Row)
  {
    row.seedlingsPlanted.Some?
  }

  /** The column sum with missing values skipped, as an exact real. */
  function SeedlingSum(rows: seq<Row>): real
    decreases |rows|
  {
    if |rows| == 0 then 0.0 else Contribution(rows[0]) + SeedlingSum(rows[1..])
  }

  /** Conversion of a float to an integer by dropping the fraction. */
  function TruncateTowardZero(x: real): (n: int)
    ensures 0.0 <= x ==> n as real <= x < n as real + 1.0
    ensures x < 0.0 ==> n as real - 1.0 < x <= n as real
  {
    if 0.0 <= x then x.Floor else -((-x).Floor)
  }

  /** The "Total Trees" metric: the seedlings sum cut to an integer. */
  function TotalTrees(rows: seq<Row>): (total: int)
    ensures |rows| == 0 ==> total == 0
    ensures 0.0 <= SeedlingSum(rows) ==> total as real <= SeedlingSum(rows) < total as real + 1.0
    ensures SeedlingSum(rows) < 0.0 ==> total as real - 1.0 < SeedlingSum(rows) <= total as real
  {
    TruncateTowardZero(SeedlingSum(rows))
  }

  /** The "Records" metric. */
  function RecordCount(rows: seq<Row>): nat
  {
    |rows|
  }

  /** How many rows carry a true `is_rainy`. */
  function RainyCount(rows: seq<Row>): (n: nat)
    ensures n <= |rows|
    ensures n == 0 <==> forall i :: 0 <= i < |rows| ==> !IsRainy(rows[i])
    ensures n == |rows| <==> forall i :: 0 <= i < |rows| ==> IsRainy(rows[i])
    decreases |rows|
  {
    if |rows| == 0 then 0
    else (if IsRainy(rows[0]) then 1 else 0) + RainyCount(rows[1..])
  }

  /** The "Rainy Season %" metric: the mean of `is_rainy` times 100, or 0 for
      no rows. It is 0 exactly when no row is rainy and 100 exactly when there
      are rows and all of them are rainy. */
  function RainyPercent(rows: seq<Row>): (pct: real)
    ensures 0.0 <= pct <= 100.0
    ensures |rows| == 0 ==> pct == 0.0
    ensures pct == 0.0 <==> forall i :: 0 <= i < |rows| ==> !IsRainy(rows[i])
    ensures pct == 100.0 <==> |rows| > 0 && forall i :: 0 <= i < |rows| ==> IsRainy(rows[i])
  {
    if |rows| > 0 then
      var share := (RainyCount(rows) as real / |rows| as real) * 100.0;
      ShareBounds(RainyCount(rows), |rows|);
      share
    else 0.0
  }

  /** A part-of-whole share scaled to 100 lies in [0, 100], and hits the
      ends exactly for none and for all. */
  lemma ShareBounds(part: nat, whole: nat)
    requires 0 < whole && part <= whole
    ensures 0.0 <= (part as real / whole as real) * 100.0 <= 100.0
    ensures (part as real / whole as real) * 100.0 == 0.0 <==> part == 0
    ensures (part as real / whole as real) * 100.0 == 100.0 <==> part == whole
  {
    var q := part as real / whole as real;
    assert q * (whole as real) == part as real;
    assert q <= 1.0;
    if q == 1.0 {
      assert part as real == whole as real;
    }
  }

  lemma {:induction false} SeedlingSumAppend(a: seq<Row>, b: seq<Row>)
    ensures SeedlingSum(a + b) == SeedlingSum(a) + SeedlingSum(b)
    decreases |a|
  {
    if |a| > 0 {
      assert (a + b)[1..] == a[1..] + b;
      SeedlingSumAppend(a[1..], b);
    } else {
      assert a + b == b;
    }
  }

  lemma {:induction false} RainyCountAppend(a: seq<Row>, b: seq<Row>)
    ensures RainyCount(a + b) == RainyCount(a) + RainyCount(b)
    decreases |a|
  {
    if |a| > 0 {
      assert (a + b)[1..] == a[1..] + b;
      RainyCountAppend(a[1..], b);
    } else {
      assert a + b == b;
    }
  }

  /** Rows whose seedlings cell did not parse add nothing to the sum: it is
      the sum over the rows that have a count. */
  lemma {:induction false} MissingSeedlingsSkipped(rows: seq<Row>)
    ensures SeedlingSum(rows) == SeedlingSum(Filter(HasSeedlings, rows))
    decreases |rows|
  {
    if |rows| > 0 {
      MissingSeedlingsSkipped(rows[1..]);
    }
  }

  /** Splitting rows by a predicate and its complement splits the sum. */
  lemma {:induction false} SeedlingSumPartition(p: Row -> bool, q: Row -> bool, rows: seq<Row>)
    requires forall x :: q(x) == !p(x)
    ensures SeedlingSum(Filter(p, rows)) + SeedlingSum(Filter(q, rows)) == SeedlingSum(rows)
    decreases |rows|
  {
    if |rows| > 0 {
      SeedlingSumPartition(p, q, rows[1..]);
    }
  }

  /** The rainy count is the size of the Rainy selection. */
  lemma {:induction false} RainyCountIsRainySelection(rows: seq<Row>)
    ensures RainyCount(rows) == |Select(rows, Rainy)|
    decreases |rows|
  {
    if |rows| > 0 {
      RainyCountIsRainySelection(rows[1..]);
    }
  }

  /** The percentage is the rainy share of the rows, scaled to 100. */
  lemma RainyPercentIsShare(rows: seq<Row>)
    requires |rows| > 0
    ensures RainyPercent(rows) == 100.0 * (|Select(rows, Rainy)| as real) / (|rows| as real)
  {
    RainyCountIsRainySelection(rows);
    ShareScalesBack(RainyCount(rows) as real, |rows| as real);
  }

  lemma ShareScalesBack(c: real, n: real)
    requires 0.0 < n
    ensures (c / n) * 100.0 == 100.0 * c / n
  {
  }

  /** The Rainy and Dry views add up to the All view in both seedlings and
      records. */
  lemma SeasonTotalsAddUp(rows: seq<Row>)
    ensures SeedlingSum(Select(rows, Rainy)) + SeedlingSum(Select(rows, Dry)) == SeedlingSum(Select(rows, All))
    ensures RecordCount(Select(rows, Rainy)) + RecordCount(Select(rows, Dry)) == RecordCount(Select(rows, All))
  {
    SeedlingSumPartition(IsRainy, IsDry, rows);
    FilterPartition(IsRainy, IsDry, rows);
  }

  /** Under the Rainy selector a non-empty view is 100% rainy; under Dry it is
      0% rainy. */
  lemma SelectedViewPercent(rows: seq<Row>)
    ensures |Select(rows, Rainy)| > 0 ==> RainyPercent(Select(rows, Rainy)) == 100.0
    ensures RainyPercent(Select(rows, Dry)) == 0.0
  {
  }

  /** A seedlings value that is a whole, non-negative count. */
  predicate IsWholeCount(x: real)
  {
    0.0 <= x && x == x.Floor as real
  }

  /** The sum of the counts as integers. */
  function CountSum(rows: seq<Row>): int
    decreases |rows|
  {
    if |rows| == 0 then 0 else Contribution(rows[0]).Floor + CountSum(rows[1..])
  }

  /** When every present count is a whole non-negative number, the total is
      exactly the integer sum of the counts and is not negative. */
  lemma {:induction false} TotalTreesOfWholeCounts(rows: seq<Row>)
    requires forall i :: 0 <= i < |rows| && rows[i].seedlingsPlanted.Some? ==>
               IsWholeCount(rows[i].seedlingsPlanted.value)
    ensures SeedlingSum(rows) == CountSum(rows) as real
    ensures TotalTrees(rows) == CountSum(rows) >= 0
    decreases |rows|
  {
    if |rows| > 0 {
      TotalTreesOfWholeCounts(rows[1..]);
    }
  }
}
