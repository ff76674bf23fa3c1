/** Season classification of loaded rows and the All / Rainy / Dry selector. */
module Seasons {
  import opened Optional
  import opened Sequences
  import opened Records

  datatype Season = All | Rainy | Dry

  /** The months of Kenya's long (March-May) and short (October-December) rains. */
  const RainyMonths: set<int> := {3, 4, 5, 10, 11, 12}

  /** The derived `month` column: absent exactly when the date is absent. */
  function Month(row: Row): (m: Option<MonthNumber>)
    ensures m.Some? <==> row.plantingDate.Some?
  {
    match row.plantingDate
    case Some(d) => Some(d.month)
    case None => None
  }

  /** The derived `is_rainy` column: membership of the month in the rainy set.
      An absent month is not a member, so an undated row is not rainy. */
  predicate IsRainy(row: Row)
    ensures IsRainy(row) <==>
              row.plantingDate.Some?
              && (3 <= row.plantingDate.value.month <= 5 || 10 <= row.plantingDate.value.month)
  {
    var m := Month(row);
    m.Some? && m.value in RainyMonths
  }

  predicate IsDry(row: Row)
  {
    !IsRainy(row)
  }

  /** The sidebar selector: All leaves the rows alone, Rainy keeps the rainy
      rows and Dry keeps the others, each in input order. */
  function Select(rows: seq<Row>, season: Season): (view: seq<Row>)
    ensures season == All ==> view == rows
    ensures season == Rainy ==> forall x :: x in view <==> x in rows && IsRainy(x)
    ensures season == Dry ==> forall x :: x in view <==> x in rows && !IsRainy(x)
    ensures season == Rainy ==> forall x :: multiset(view)[x] == if IsRainy(x) then multiset(rows)[x] else 0
    ensures season == Dry ==> forall x :: multiset(view)[x] == if IsRainy(x) then 0 else multiset(rows)[x]
    ensures IsSubsequence(view, rows)
  {
    match season
    case All =>
      SubsequenceReflexive(rows);
      rows
    case Rainy =>
      FilterIsSubsequence(IsRainy, rows);
      FilterMultiplicity(IsRainy, rows);
      Filter(IsRainy, rows)
    case Dry =>
      FilterIsSubsequence(IsDry, rows);
      FilterMultiplicity(IsDry, rows);
      Filter(IsDry, rows)
  }

  /** Applying a selector a second time changes nothing. */
  lemma SelectIdempotent(rows: seq<Row>, season: Season)
    ensures Select(Select(rows, season), season) == Select(rows, season)
  {
    match season
    case All =>
    case Rainy => FilterIdempotent(IsRainy, rows);
    case Dry => FilterIdempotent(IsDry, rows);
  }

  /** Rainy and Dry split the rows: no row is in both, every row is in one,
      and together they hold every row exactly as often as the input does. */
  lemma RainyDryPartition(rows: seq<Row>)
    ensures forall x :: !(x in Select(rows, Rainy) && x in Select(rows, Dry))
    ensures forall x :: x in rows <==> x in Select(rows, Rainy) || x in Select(rows, Dry)
    ensures |Select(rows, Rainy)| + |Select(rows, Dry)| == |Select(rows, All)|
    ensures multiset(Select(rows, Rainy)) + multiset(Select(rows, Dry)) == multiset(Select(rows, All))
  {
    FilterPartition(IsRainy, IsDry, rows);
  }

  /** A row whose date did not parse is never rainy and always lands in Dry. */
  lemma UndatedRowIsDry(rows: seq<Row>, row: Row)
    requires row in rows && row.plantingDate.None?
    ensures row !in Select(rows, Rainy)
    ensures row in Select(rows, Dry)
  {
  }
}
