/**
 * The prepared sales table the dashboard loads at start-up: one row per item
 * and day, with the day's summed quantity and revenue, the day's mean
 * temperature and the item's clothing name (missing when the item has none).
 */
module Records {
  import opened Wrappers
  import opened Dates

  datatype Row = Row(date: Date, item: string, qty: int, total: int, celsius: real, cloth: Option<string>)

  /** The column a ranking sums: units sold or revenue. */
  datatype Measure = Qty | Total

  /** The chosen measure out of a row's units and revenue. */
  function Pick(m: Measure, qty: int, total: int): int
  {
    match m
    case Qty => qty
    case Total => total
  }

  function Value(r: Row, m: Measure): int
  {
    Pick(m, r.qty, r.total)
  }

  /** What a group-by over the `item` column sees of the chosen measure. */
  function ByItem(rows: seq<Row>, m: Measure): seq<(string, int)>
  {
    seq(|rows|, i requires 0 <= i < |rows| => (rows[i].item, Value(rows[i], m)))
  }

  lemma ByItemCons(r: Row, rows: seq<Row>, m: Measure)
    ensures ByItem([r] + rows, m) == [(r.item, Value(r, m))] + ByItem(rows, m)
  {
  }
}
