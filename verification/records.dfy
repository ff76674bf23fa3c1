/** The row shapes of the tree-planting table. The CSV has no header: the
    eight columns get their names by position (gps_str, plantingdate,
    seedlingsplanted, month_year, lat, lon, temperature, rainfall). */
module Records {
  import opened Optional

  type MonthNumber = m: int | 1 <= m <= 12 witness 1

  /** A calendar date as produced by the date parser; only `month` is used. */
  datatype Date = Date(year: int, month: MonthNumber, day: int)

  /** One line of the file, its eight cells named positionally, before any
      type conversion. */
  datatype RawRow = RawRow(
    gpsStr: string,
    plantingDate: string,
    seedlingsPlanted: string,
    monthYear: string,
    lat: string,
    lon: string,
    temperature: string,
    rainfall: string)

  /** A row after coercion: the four converted columns may be absent (NaT /
      NaN). The other four are never converted explicitly and are kept as
      opaque cell text; the CSV reader's own type inference on them is not
      modelled. */
  datatype Row = Row(
    gpsStr: string,
    plantingDate: Option<Date>,
    seedlingsPlanted: Option<real>,
    monthYear: string,
    lat: Option<real>,
    lon: Option<real>,
    temperature: string,
    rainfall: string)

  /** The cell parsers, with failure mapped to `None` ("errors=coerce"):
      `toDatetime` for the date column and `toNumeric` for the seedlings and
      coordinate columns. Their internals belong to the dataframe library. */
  datatype Parsers = Parsers(toDatetime: string -> Option<Date>, toNumeric: string -> Option<real>)
}
