/**
 * Placement of the seasonal bar charts in a two-by-two grid of subplots.
 * The i-th dictionary entry (counting from 1, in insertion order) goes to
 * row (i - 1) // 2 + 1 and column (i - 1) % 2 + 1. For a positive divisor,
 * Python's floor division and modulo agree with Dafny's Euclidean `/` and `%`.
 */
module Layout {
  import opened Ranking

  function GridRow(i: int): int
  {
    (i - 1) / 2 + 1
  }

  function GridCol(i: int): int
  {
    (i - 1) % 2 + 1
  }

  /**
   * The column is always 1 or 2, the index is recovered from its cell, and
   * exactly the indices 1 to 4 land in the first two rows.
   */
  lemma GridCell(i: int)
    ensures 1 <= GridCol(i) <= 2
    ensures 2 * (GridRow(i) - 1) + GridCol(i) == i
    ensures 1 <= i <= 4 <==> 1 <= GridRow(i) <= 2
  {
  }

  /** Distinct indices get distinct cells. */
  lemma GridCellsDistinct(i: int, j: int)
    requires i != j
    ensures (GridRow(i), GridCol(i)) != (GridRow(j), GridCol(j))
  {
    GridCell(i);
    GridCell(j);
  }

  /** A bar trace: one bar per ranked item, its height the item's sum. */
  datatype Bar = Bar(name: string, x: seq<string>, y: seq<int>)

  function BarOf(name: string, top: seq<Entry<string>>): Bar
  {
    Bar(name, KeysOf(top), seq(|top|, i requires 0 <= i < |top| => top[i].sum))
  }

  datatype Placed = Placed(bar: Bar, row: int, col: int)

  /**
   * The subplot figure, reduced to what the placement loops change: the
   * list of traces and the cell each was added to. Adding a trace outside
   * the grid is an error of the charting library, hence the precondition.
   */
  class Figure {
    const rows: nat
    const cols: nat
    var traces: seq<Placed>

    constructor (rows: nat, cols: nat)
      ensures this.rows == rows && this.cols == cols && traces == []
    {
      this.rows := rows;
      this.cols := cols;
      traces := [];
    }

    method AddTrace(b: Bar, row: int, col: int)
      requires 1 <= row <= rows && 1 <= col <= cols
      modifies this
      ensures traces == old(traces) + [Placed(b, row, col)]
    {
      traces := traces + [Placed(b, row, col)];
    }
  }

  /**
   * One placement loop: a bar trace per dictionary entry, in insertion
   * order, the i-th in cell (GridRow(i), GridCol(i)); at most four entries
   * fit, and no two share a cell.
   */
  method AddSeasonBars(fig: Figure, results: seq<(string, seq<Entry<string>>)>)
    requires fig.rows == 2 && fig.cols == 2 && |results| <= 4
    modifies fig
    ensures |fig.traces| == |old(fig.traces)| + |results|
    ensures fig.traces[..|old(fig.traces)|] == old(fig.traces)
    ensures forall k :: 0 <= k < |results| ==>
      fig.traces[|old(fig.traces)| + k] == Placed(BarOf(results[k].0, results[k].1), GridRow(k + 1), GridCol(k + 1))
    ensures forall j, k :: |old(fig.traces)| <= j < k < |fig.traces| ==>
      (fig.traces[j].row, fig.traces[j].col) != (fig.traces[k].row, fig.traces[k].col)
  {
    ghost var before := fig.traces;
    var n := |before|;
    for i := 1 to |results| + 1
      invariant |fig.traces| == n + i - 1
      invariant fig.traces[..n] == before
      invariant forall k :: 0 <= k < i - 1 ==>
        fig.traces[n + k] == Placed(BarOf(results[k].0, results[k].1), GridRow(k + 1), GridCol(k + 1))
    {
      var (periodName, top) := results[i - 1];
      var trace := BarOf(periodName, top);
      var row := GridRow(i);
      var col := GridCol(i);
      GridCell(i);
      fig.AddTrace(trace, row, col);
    }
    forall j, k | n <= j < k < |fig.traces|
      ensures (fig.traces[j].row, fig.traces[j].col) != (fig.traces[k].row, fig.traces[k].col)
    {
      var a, b := j - n, k - n;
      assert fig.traces[n + a] == Placed(BarOf(results[a].0, results[a].1), GridRow(a + 1), GridCol(a + 1));
      assert fig.traces[n + b] == Placed(BarOf(results[b].0, results[b].1), GridRow(b + 1), GridCol(b + 1));
      GridCellsDistinct(a + 1, b + 1);
    }
  }

  /**
   * The seasonal figure: a two-by-two grid receiving first the bars by units
   * sold, then the bars by revenue, so each season's cell holds one of each.
   */
  method SeasonFigure(resultsQty: seq<(string, seq<Entry<string>>)>, resultsTotal: seq<(string, seq<Entry<string>>)>)
    returns (fig: Figure)
    requires |resultsQty| <= 4 && |resultsTotal| <= 4
    ensures fresh(fig) && fig.rows == 2 && fig.cols == 2
    ensures |fig.traces| == |resultsQty| + |resultsTotal|
    ensures forall k :: 0 <= k < |resultsQty| ==>
      fig.traces[k] == Placed(BarOf(resultsQty[k].0, resultsQty[k].1), GridRow(k + 1), GridCol(k + 1))
    ensures forall k :: 0 <= k < |resultsTotal| ==>
      fig.traces[|resultsQty| + k] == Placed(BarOf(resultsTotal[k].0, resultsTotal[k].1), GridRow(k + 1), GridCol(k + 1))
  {
    fig := new Figure(2, 2);
    AddSeasonBars(fig, resultsQty);
    ghost var afterQty := fig.traces;
    AddSeasonBars(fig, resultsTotal);
    forall k | 0 <= k < |resultsQty|
      ensures fig.traces[k] == Placed(BarOf(resultsQty[k].0, resultsQty[k].1), GridRow(k + 1), GridCol(k + 1))
    {
      assert fig.traces[k] == fig.traces[..|afterQty|][k];
    }
  }
}
