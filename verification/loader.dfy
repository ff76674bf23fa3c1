/** The load stage: positional naming, type coercion, dropping rows without
    coordinates, and the Kenya bounding-box restriction. */
module Loader {
  import opened Optional
  import opened Sequences
  import opened Records

  const MinLat: real := -5.0
  const MaxLat: real := 5.0
  const MinLon: real := 33.0
  const MaxLon: real := 42.0

  /** The approximate Kenya bounding box, bounds included. */
  predicate InKenya(lat: real, lon: real)
  {
    MinLat <= lat <= MaxLat && MinLon <= lon <= MaxLon
  }

  /** Both coordinates survived numeric conversion. */
  predicate HasCoordinates(row: Row)
  {
    row.lat.Some? && row.lon.Some?
  }

  /** The Kenya mask; a NaN coordinate compares false, so it fails the mask. */
  predicate WithinKenya(row: Row)
  {
    match (row.lat, row.lon)
    case (Some(lat), Some(lon)) => InKenya(lat, lon)
    case _ => false
  }

  /** Converts the date, seedlings and coordinate cells; the other cells are
      carried over unchanged. */
  function Coerce(raw: RawRow, parse: Parsers): Row
  {
    Row(raw.gpsStr,
        parse.toDatetime(raw.plantingDate),
        parse.toNumeric(raw.seedlingsPlanted),
        raw.monthYear,
        parse.toNumeric(raw.lat),
        parse.toNumeric(raw.lon),
        raw.temperature,
        raw.rainfall)
  }

  function CoerceWith(parse: Parsers): RawRow -> Row
  {
    (raw: RawRow) => Coerce(raw, parse)
  }

  /** The survival test read off the raw line: it looks only at the two
      coordinate cells. */
  function CoordinateCellsInKenya(parse: Parsers): RawRow -> bool
  {
    (raw: RawRow) =>
      match (parse.toNumeric(raw.lat), parse.toNumeric(raw.lon))
      case (Some(lat), Some(lon)) => InKenya(lat, lon)
      case _ => false
  }

  /** The row filters of the load stage applied to already-coerced rows:
      drop rows with a missing coordinate, then keep the rows in the box. */
  function RestrictToKenya(rows: seq<Row>): (kept: seq<Row>)
    ensures forall i :: 0 <= i < |kept| ==> kept[i].lat.Some? && kept[i].lon.Some?
    ensures forall i :: 0 <= i < |kept| ==>
              -5.0 <= kept[i].lat.value <= 5.0 && 33.0 <= kept[i].lon.value <= 42.0
    ensures forall x :: x in kept <==> x in rows && HasCoordinates(x) && InKenya(x.lat.value, x.lon.value)
    ensures forall x :: multiset(kept)[x] ==
              if HasCoordinates(x) && InKenya(x.lat.value, x.lon.value) then multiset(rows)[x] else 0
    ensures IsSubsequence(kept, rows)
  {
    var withCoordinates := Filter(HasCoordinates, rows);
    FilterMultiplicity(HasCoordinates, rows);
    FilterMultiplicity(WithinKenya, withCoordinates);
    FilterIsSubsequence(HasCoordinates, rows);
    FilterIsSubsequence(WithinKenya, withCoordinates);
    SubsequenceTransitive(Filter(WithinKenya, withCoordinates), withCoordinates, rows);
    Filter(WithinKenya, withCoordinates)
  }

  /** The whole load stage: name and coerce every line, then restrict. */
  function LoadData(raws: seq<RawRow>, parse: Parsers): (kept: seq<Row>)
    ensures |kept| <= |raws|
    ensures forall i :: 0 <= i < |kept| ==> WithinKenya(kept[i])
    ensures IsSubsequence(kept, Map(CoerceWith(parse), raws))
  {
    RestrictToKenya(Map(CoerceWith(parse), raws))
  }

  /** Which lines survive is decided by their coordinate cells alone: the load
      result is the coerced image of exactly the lines whose lat/lon cells parse
      into the box, in input order. A date or seedlings cell that fails to parse
      becomes `None` but never removes its line. */
  lemma LoadDataSurvivors(raws: seq<RawRow>, parse: Parsers)
    ensures LoadData(raws, parse) == Map(CoerceWith(parse), Filter(CoordinateCellsInKenya(parse), raws))
    ensures forall raw :: raw in raws && CoordinateCellsInKenya(parse)(raw) ==>
              Coerce(raw, parse) in LoadData(raws, parse)
  {
    var rows := Map(CoerceWith(parse), raws);
    FilterAbsorbs(HasCoordinates, WithinKenya, rows);
    FilterMap(WithinKenya, CoerceWith(parse), CoordinateCellsInKenya(parse), raws);
    var survivors := Filter(CoordinateCellsInKenya(parse), raws);
    forall raw | raw in raws && CoordinateCellsInKenya(parse)(raw)
      ensures Coerce(raw, parse) in LoadData(raws, parse)
    {
      var i :| 0 <= i < |raws| && raws[i] == raw;
      assert raw in survivors;
      MapMember(CoerceWith(parse), survivors, raw);
    }
  }
}
