/** Selection of the closing-price column from a downloaded price table whose
    columns come either flat or under (field, ticker) pairs. */
module CloseExtraction {
  import opened PriceSeries

  /** The field name under which closing prices are stored. */
  const Close: string := "Close"

  /** The two column layouts a price table can have: one level of field names,
      or a two-level (field, ticker) index when several instruments share a table. */
  datatype Table =
    | Flat(fields: map<string, Series>)
    | Hierarchical(pairs: map<(string, string), Series>)
  {
    predicate Valid() {
      match this
      case Flat(fields) => forall f :: f in fields ==> fields[f].Valid()
      case Hierarchical(pairs) => forall k :: k in pairs ==> pairs[k].Valid()
    }
  }

  /** Whether the table holds the closing-price column for `ticker`: the
      "Close" field of a flat table (which holds a single instrument, so the
      ticker plays no part), or the ("Close", ticker) pair of a hierarchical one. */
  predicate HasCloseColumn(t: Table, ticker: string)
  {
    match t
    case Flat(fields) => Close in fields
    case Hierarchical(pairs) => (Close, ticker) in pairs
  }

  /** Picks the closing-price series for `ticker`; a missing column is an error
      and no other column is ever used in its place. */
  function ExtractClosePrice(t: Table, ticker: string): (r: Result<Series>)
    ensures r.Ok? <==> HasCloseColumn(t, ticker)
    ensures r.Err? ==> r.error == MissingColumn
    ensures r.Ok? && t.Flat? ==> r.value == t.fields[Close]
    ensures r.Ok? && t.Hierarchical? ==> r.value == t.pairs[(Close, ticker)]
    ensures r.Ok? && t.Valid() ==> r.value.Valid()
  {
    match t
    case Flat(fields) =>
      if Close in fields then Ok(fields[Close]) else Err(MissingColumn)
    case Hierarchical(pairs) =>
      if (Close, ticker) in pairs then Ok(pairs[(Close, ticker)]) else Err(MissingColumn)
  }

  /** In a hierarchical table only the (Close, ticker) column matters: the
      columns of other fields and of other tickers can be anything. */
  lemma ExtractReadsOnlyItsColumn(pairs: map<(string, string), Series>, other: map<(string, string), Series>, ticker: string)
    requires (Close, ticker) in pairs <==> (Close, ticker) in other
    requires (Close, ticker) in pairs ==> pairs[(Close, ticker)] == other[(Close, ticker)]
    ensures ExtractClosePrice(Hierarchical(pairs), ticker) == ExtractClosePrice(Hierarchical(other), ticker)
  {
  }

  /** There is no fallback: a hierarchical table that has a closing price for
      some other ticker still fails for a ticker it lacks. */
  lemma NoFallbackToOtherTicker(pairs: map<(string, string), Series>, ticker: string, other: string)
    requires (Close, other) in pairs && (Close, ticker) !in pairs
    ensures ExtractClosePrice(Hierarchical(pairs), ticker) == Err(MissingColumn)
    ensures ExtractClosePrice(Hierarchical(pairs), other).Ok?
  {
  }
}
