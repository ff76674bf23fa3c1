/** One page render: load, select by season, summarise. */
module Dashboard {
  import opened Optional
  import opened Sequences
  import opened Records
  import opened Loader
  import opened Seasons
  import opened Metrics

  /** The three numbers shown above the map. */
  datatype Summary = Summary(totalTrees: int, records: nat, rainyPercent: real)

  /** The rows the page shows for a file and a season choice. */
  function View(raws: seq<RawRow>, parse: Parsers, season: Season): seq<Row>
  {
    Select(LoadData(raws, parse), season)
  }

  /** Computes the three metrics in one pass over the view. */
  method Summarize(view: seq<Row>) returns (s: Summary)
    ensures s.totalTrees == TotalTrees(view)
    ensures s.records == RecordCount(view)
    ensures s.rainyPercent == RainyPercent(view)
  {
    var sum := 0.0;
    var rainy := 0;
    var i := 0;
    while i < |view|
      invariant 0 <= i <= |view|
      invariant sum == SeedlingSum(view[..i])
      invariant rainy == RainyCount(view[..i])
    {
      assert view[..i + 1] == view[..i] + [view[i]];
      SeedlingSumAppend(view[..i], [view[i]]);
      RainyCountAppend(view[..i], [view[i]]);
      match view[i].seedlingsPlanted {
        case Some(n) => sum := sum + n;
        case None =>
      }
      if IsRainy(view[i]) {
        rainy := rainy + 1;
      }
      i := i + 1;
    }
    assert view[..i] == view;
    var pct := if i > 0 then (rainy as real / i as real) * 100.0 else 0.0;
    s := Summary(TruncateTowardZero(sum), i, pct);
  }

  /** What every render guarantees: the shown rows lie in the Kenya box, they
      are the coerced input lines in file order with some removed, they match
      the season choice, and the percentage agrees with the choice. */
  lemma ViewInvariants(raws: seq<RawRow>, parse: Parsers, season: Season)
    ensures forall i :: 0 <= i < |View(raws, parse, season)| ==> WithinKenya(View(raws, parse, season)[i])
    ensures IsSubsequence(View(raws, parse, season), Map(CoerceWith(parse), raws))
    ensures season == Rainy && |View(raws, parse, season)| > 0 ==> RainyPercent(View(raws, parse, season)) == 100.0
    ensures season == Dry ==> RainyPercent(View(raws, parse, season)) == 0.0
    ensures season == Rainy ==> forall x :: x in View(raws, parse, season) ==> IsRainy(x)
    ensures season == Dry ==> forall x :: x in View(raws, parse, season) ==> !IsRainy(x)
  {
    var rows := Map(CoerceWith(parse), raws);
    var loaded := LoadData(raws, parse);
    var view := Select(loaded, season);
    assert view == View(raws, parse, season);
    assert IsSubsequence(view, rows) by {
      SubsequenceTransitive(view, loaded, rows);
    }
    assert forall i :: 0 <= i < |view| ==> WithinKenya(view[i]) by {
      assert forall i :: 0 <= i < |view| ==> view[i] in loaded;
    }
    SelectedViewPercent(loaded);
  }
}
