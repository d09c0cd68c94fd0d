/**
 * The seasonal comparison: four fixed date windows, and for each window the
 * ten items with the most units sold and, separately, the ten with the most
 * revenue, filed in two insertion-ordered dictionaries under the window's
 * label.
 */
module Seasons {
  import opened Wrappers
  import opened Dates
  import opened Ranking
  import opened Records
  import Dicts

  /** A season as the dashboard lists it: a name and two "YYYY-MM-DD" bounds. */
  datatype Period = Period(name: string, start: string, end: string)

  const Periods: seq<Period> := [
    Period("Primavera-Estate 2017", "2017-03-15", "2017-09-21"),
    Period("Autunno-Inverno 2017", "2017-09-22", "2018-03-21"),
    Period("Primavera-Estate 2018", "2018-03-22", "2018-09-21"),
    Period("Autunno-Inverno 2018", "2018-09-22", "2019-03-30")
  ]

  /** The dictionary key a season's ranking is filed under. */
  function Label(p: Period): string
  {
    p.name + ": " + p.start + " - " + p.end
  }

  /** A window of days, both ends included. */
  datatype Window = Window(first: Date, last: Date)

  predicate InWindow(d: Date, w: Window)
  {
    AtMost(w.first, d) && AtMost(d, w.last)
  }

  /** The bounds of a period as the table library reads them before comparing. */
  function WindowOf(p: Period): Option<Window>
  {
    match (ParseIso(p.start), ParseIso(p.end))
    case (Some(a), Some(b)) => Some(Window(a, b))
    case _ => None
  }

  const Windows: seq<Window> := [
    Window(Date(2017, 3, 15), Date(2017, 9, 21)),
    Window(Date(2017, 9, 22), Date(2018, 3, 21)),
    Window(Date(2018, 3, 22), Date(2018, 9, 21)),
    Window(Date(2018, 9, 22), Date(2019, 3, 30))
  ]

  /** A string that renders a date parses back to that date. */
  lemma ParsesTo(d: Date, s: string)
    requires Valid(d) && 0 <= d.year <= 9999 && FormatIso(d) == s
    ensures ParseIso(s) == Some(d)
  {
    ParseFormat(d);
  }

  // One lemma per season bound: each evaluates a single rendering. Keeping
  // every literal in its own small lemma keeps the solver cost of each proof
  // obligation low; one lemma over all eight bounds is far more expensive.

  lemma Parses20170315()
    ensures ParseIso("2017-03-15") == Some(Date(2017, 3, 15))
  {
    ParsesTo(Date(2017, 3, 15), "2017-03-15");
  }

  lemma Parses20170921()
    ensures ParseIso("2017-09-21") == Some(Date(2017, 9, 21))
  {
    ParsesTo(Date(2017, 9, 21), "2017-09-21");
  }

  lemma Parses20170922()
    ensures ParseIso("2017-09-22") == Some(Date(2017, 9, 22))
  {
    ParsesTo(Date(2017, 9, 22), "2017-09-22");
  }

  lemma Parses20180321()
    ensures ParseIso("2018-03-21") == Some(Date(2018, 3, 21))
  {
    ParsesTo(Date(2018, 3, 21), "2018-03-21");
  }

  lemma Parses20180322()
    ensures ParseIso("2018-03-22") == Some(Date(2018, 3, 22))
  {
    ParsesTo(Date(2018, 3, 22), "2018-03-22");
  }

  lemma Parses20180921()
    ensures ParseIso("2018-09-21") == Some(Date(2018, 9, 21))
  {
    ParsesTo(Date(2018, 9, 21), "2018-09-21");
  }

  lemma Parses20180922()
    ensures ParseIso("2018-09-22") == Some(Date(2018, 9, 22))
  {
    ParsesTo(Date(2018, 9, 22), "2018-09-22");
  }

  lemma Parses20190330()
    ensures ParseIso("2019-03-30") == Some(Date(2019, 3, 30))
  {
    ParsesTo(Date(2019, 3, 30), "2019-03-30");
  }

  lemma PeriodParses0()
    ensures WindowOf(Period("Primavera-Estate 2017", "2017-03-15", "2017-09-21")) == Some(Window(Date(2017, 3, 15), Date(2017, 9, 21)))
  {
    Parses20170315();
    Parses20170921();
  }

  lemma PeriodParses1()
    ensures WindowOf(Period("Autunno-Inverno 2017", "2017-09-22", "2018-03-21")) == Some(Window(Date(2017, 9, 22), Date(2018, 3, 21)))
  {
    Parses20170922();
    Parses20180321();
  }

  lemma PeriodParses2()
    ensures WindowOf(Period("Primavera-Estate 2018", "2018-03-22", "2018-09-21")) == Some(Window(Date(2018, 3, 22), Date(2018, 9, 21)))
  {
    Parses20180322();
    Parses20180921();
  }

  lemma PeriodParses3()
    ensures WindowOf(Period("Autunno-Inverno 2018", "2018-09-22", "2019-03-30")) == Some(Window(Date(2018, 9, 22), Date(2019, 3, 30)))
  {
    Parses20180922();
    Parses20190330();
  }

  /** Every period's bounds parse, to the days listed in Windows. */
  lemma PeriodParsesAt(k: nat)
    requires k < |Periods|
    ensures k < |Windows| && WindowOf(Periods[k]) == Some(Windows[k])
  {
    if k == 0 {
      PeriodParses0();
    } else if k == 1 {
      PeriodParses1();
    } else if k == 2 {
      PeriodParses2();
    } else {
      PeriodParses3();
    }
  }

  /** No two seasons share a label, so no season overwrites another's ranking. */
  lemma LabelsDistinct()
    ensures forall i, j :: 0 <= i < j < |Periods| ==> Label(Periods[i]) != Label(Periods[j])
  {
    assert Label(Periods[0])[20] == '7' && Label(Periods[2])[20] == '8';
    assert Label(Periods[1])[19] == '7' && Label(Periods[3])[19] == '8';
  }

  /**
   * The windows are in order, each non-empty, and each starts the day after
   * the previous one ends.
   */
  lemma WindowsContiguous()
    ensures forall k :: 0 <= k < |Windows| ==> Valid(Windows[k].first) && Valid(Windows[k].last)
    ensures forall k :: 0 <= k < |Windows| ==> AtMost(Windows[k].first, Windows[k].last)
    ensures forall k :: 0 <= k < |Windows| - 1 ==> NextDay(Windows[k].last) == Windows[k + 1].first
  {
  }

  /**
   * Every day from the first window's start to the last window's end lies in
   * exactly one window.
   */
  lemma SeasonsPartition(d: Date)
    requires Valid(d) && AtMost(Windows[0].first, d) && AtMost(d, Windows[3].last)
    ensures exists k :: 0 <= k < 4 && InWindow(d, Windows[k])
    ensures forall j, k :: 0 <= j < 4 && 0 <= k < 4 && InWindow(d, Windows[j]) && InWindow(d, Windows[k]) ==> j == k
  {
    WindowsContiguous();
    var e0, e1, e2 := Windows[0].last, Windows[1].last, Windows[2].last;
    assert Before(e0, d) ==> AtMost(NextDay(e0), d);
    assert Before(e1, d) ==> AtMost(NextDay(e1), d);
    assert Before(e2, d) ==> AtMost(NextDay(e2), d);
  }

  // ----- one window -----

  /** The rows whose day lies in the window, in their original order. */
  function RowsIn(rows: seq<Row>, w: Window): (r: seq<Row>)
    ensures forall x :: multiset(r)[x] == if InWindow(x.date, w) then multiset(rows)[x] else 0
  {
    if rows == [] then []
    else
      assert rows == [rows[0]] + rows[1..];
      (if InWindow(rows[0].date, w) then [rows[0]] else []) + RowsIn(rows[1..], w)
  }

  /** Some row of `item` falls in the window. */
  ghost predicate SoldIn(rows: seq<Row>, w: Window, item: string)
  {
    exists i :: 0 <= i < |rows| && rows[i].item == item && InWindow(rows[i].date, w)
  }

  /** The measure summed over the rows of `item` that fall in the window. */
  function ItemSumIn(rows: seq<Row>, w: Window, item: string, m: Measure): int
  {
    if rows == [] then 0
    else
      (if InWindow(rows[0].date, w) && rows[0].item == item then Value(rows[0], m) else 0)
      + ItemSumIn(rows[1..], w, item, m)
  }

  lemma {:induction false} WindowGroupSum(rows: seq<Row>, w: Window, item: string, m: Measure)
    ensures SumFor(ByItem(RowsIn(rows, w), m), item) == ItemSumIn(rows, w, item, m)
  {
    if rows != [] {
      WindowGroupSum(rows[1..], w, item, m);
      var rest := RowsIn(rows[1..], w);
      if InWindow(rows[0].date, w) {
        assert RowsIn(rows, w) == [rows[0]] + rest;
        ByItemCons(rows[0], rest, m);
        SumForCons((rows[0].item, Value(rows[0], m)), ByItem(rest, m), item);
      } else {
        assert RowsIn(rows, w) == rest;
      }
    }
  }

  lemma GroupedItemSold(rows: seq<Row>, w: Window, item: string, m: Measure)
    requires Occurs(ByItem(RowsIn(rows, w), m), item)
    ensures SoldIn(rows, w, item)
  {
    var f := RowsIn(rows, w);
    var j :| 0 <= j < |ByItem(f, m)| && ByItem(f, m)[j].0 == item;
    var x := f[j];
    assert x in multiset(f);
    assert x in multiset(rows) && InWindow(x.date, w);
    var i :| 0 <= i < |rows| && rows[i] == x;
  }

  lemma SoldItemGrouped(rows: seq<Row>, w: Window, item: string, m: Measure)
    requires SoldIn(rows, w, item)
    ensures Occurs(ByItem(RowsIn(rows, w), m), item)
  {
    var f := RowsIn(rows, w);
    var i :| 0 <= i < |rows| && rows[i].item == item && InWindow(rows[i].date, w);
    var x := rows[i];
    assert x in multiset(rows);
    assert x in multiset(f);
    var j :| 0 <= j < |f| && f[j] == x;
    assert ByItem(f, m)[j].0 == item;
  }

  /** A row is kept exactly when its day is in the window, so an item has a group exactly when it sold in the window. */
  lemma WindowGroups(rows: seq<Row>, w: Window, item: string, m: Measure)
    ensures Occurs(ByItem(RowsIn(rows, w), m), item) <==> SoldIn(rows, w, item)
  {
    if Occurs(ByItem(RowsIn(rows, w), m), item) {
      GroupedItemSold(rows, w, item, m);
    }
    if SoldIn(rows, w, item) {
      SoldItemGrouped(rows, w, item, m);
    }
  }

  /**
   * `r` is a correct season ranking by `m`: at most ten items, each once,
   * each sold in the window and reported with its exact sum over the
   * window's rows, sums non-increasing, and an item sold in the window is
   * missing only when ten are listed and it sold no more than the tenth.
   */
  ghost predicate IsSeasonTop(rows: seq<Row>, w: Window, m: Measure, r: seq<Entry<string>>)
  {
    && |r| <= 10
    && Distinct(KeysOf(r))
    && SortedDesc(r)
    && (forall i :: 0 <= i < |r| ==> SoldIn(rows, w, r[i].key) && r[i].sum == ItemSumIn(rows, w, r[i].key, m))
    && (forall item :: SoldIn(rows, w, item) && item !in KeysOf(r) ==>
          |r| == 10 && ItemSumIn(rows, w, item, m) <= r[9].sum)
  }

  /** The generic ranking of a window's rows is a season ranking. */
  lemma SeasonTopMeaning(rows: seq<Row>, w: Window, m: Measure, r: seq<Entry<string>>)
    requires IsTopN(ByItem(RowsIn(rows, w), m), 10, r)
    ensures IsSeasonTop(rows, w, m, r)
  {
    forall item
      ensures Occurs(ByItem(RowsIn(rows, w), m), item) <==> SoldIn(rows, w, item)
      ensures SumFor(ByItem(RowsIn(rows, w), m), item) == ItemSumIn(rows, w, item, m)
    {
      WindowGroups(rows, w, item, m);
      WindowGroupSum(rows, w, item, m);
    }
  }

  /** A window in which nothing was sold has an empty ranking, and only such a window. */
  lemma EmptySeason(rows: seq<Row>, w: Window, m: Measure, r: seq<Entry<string>>)
    requires IsSeasonTop(rows, w, m, r)
    ensures r == [] <==> forall i :: 0 <= i < |rows| ==> !InWindow(rows[i].date, w)
  {
    if r != [] {
      assert SoldIn(rows, w, r[0].key);
    }
    forall i | 0 <= i < |rows| && InWindow(rows[i].date, w) ensures r != [] {
      assert SoldIn(rows, w, rows[i].item);
    }
  }

  // ----- the two loops -----

  /** The dictionary keys in the order the loop files them. */
  function SeasonLabels(): seq<string>
  {
    seq(|Periods|, k requires 0 <= k < |Periods| => Label(Periods[k]))
  }

  /** The label of season `i` is not among those filed before it. */
  lemma LabelFresh(i: nat)
    requires i < |Periods|
    ensures Label(Periods[i]) !in SeasonLabels()[..i]
  {
    LabelsDistinct();
    var ls := SeasonLabels();
    forall k | 0 <= k < i ensures ls[..i][k] != Label(Periods[i]) {
      assert ls[..i][k] == Label(Periods[k]);
    }
  }

  /** The chain applied to one window: filter, group by item, sort, keep ten. */
  function SeasonRanking(df: seq<Row>, w: Window, m: Measure): seq<Entry<string>>
  {
    TopN(ByItem(RowsIn(df, w), m), 10)
  }

  lemma SeasonRankingCorrect(df: seq<Row>, w: Window, m: Measure)
    ensures IsSeasonTop(df, w, m, SeasonRanking(df, w, m))
  {
    TopNCorrect(ByItem(RowsIn(df, w), m), 10);
    SeasonTopMeaning(df, w, m, SeasonRanking(df, w, m));
  }

  /** The dictionary after the first `n` seasons are filed. */
  function Filed(df: seq<Row>, m: Measure, n: nat): seq<(string, seq<Entry<string>>)>
    requires n <= |Periods|
  {
    if n == 0 then []
    else Filed(df, m, n - 1) + [(Label(Periods[n - 1]), SeasonRanking(df, Windows[n - 1], m))]
  }

  /** After `n` seasons the keys are the first `n` labels, in order. */
  lemma {:induction false} FiledKeys(df: seq<Row>, m: Measure, n: nat)
    requires n <= |Periods|
    ensures Dicts.Keys(Filed(df, m, n)) == SeasonLabels()[..n]
  {
    if n > 0 {
      FiledKeys(df, m, n - 1);
      var ls := SeasonLabels();
      Dicts.KeysAppend(Filed(df, m, n - 1), ls[n - 1], SeasonRanking(df, Windows[n - 1], m));
      assert ls[..n] == ls[..n - 1] + [ls[n - 1]];
    }
  }

  /** After `n` seasons, entry `k` holds the ranking of window `k`. */
  lemma {:induction false} FiledRankings(df: seq<Row>, m: Measure, n: nat)
    requires n <= |Periods|
    ensures |Filed(df, m, n)| == n
    ensures forall k :: 0 <= k < n ==> Filed(df, m, n)[k].1 == SeasonRanking(df, Windows[k], m)
  {
    if n > 0 {
      FiledRankings(df, m, n - 1);
      var prev, last := Filed(df, m, n - 1), (Label(Periods[n - 1]), SeasonRanking(df, Windows[n - 1], m));
      assert Filed(df, m, n) == prev + [last];
      forall k | 0 <= k < n ensures Filed(df, m, n)[k].1 == SeasonRanking(df, Windows[k], m) {
        if k < n - 1 {
          assert (prev + [last])[k] == prev[k];
        }
      }
    }
  }

  /** Filing season `i` as the loop does extends the dictionary by that season's entry. */
  lemma FileStep(df: seq<Row>, m: Measure, i: nat)
    requires i < |Periods|
    ensures WindowOf(Periods[i]).Some?
    ensures Dicts.Put(Filed(df, m, i), Label(Periods[i]), SeasonRanking(df, WindowOf(Periods[i]).value, m))
      == Filed(df, m, i + 1)
  {
    PeriodParsesAt(i);
    FiledKeys(df, m, i);
    LabelFresh(i);
  }

  /**
   * One pass over the seasons: for each, keep the rows in its window, rank
   * the items by `m` and file the top ten under the season's label.
   */
  method SeasonalTop(df: seq<Row>, m: Measure) returns (results: seq<(string, seq<Entry<string>>)>)
    ensures Dicts.Keys(results) == SeasonLabels()
    ensures forall k :: 0 <= k < |results| ==> IsSeasonTop(df, Windows[k], m, results[k].1)
  {
    results := [];
    for i := 0 to |Periods|
      invariant results == Filed(df, m, i)
    {
      FileStep(df, m, i);
      var w := WindowOf(Periods[i]).value;
      var current := RowsIn(df, w);
      var top := TopN(ByItem(current, m), 10);
      results := Dicts.Put(results, Label(Periods[i]), top);
    }
    FiledKeys(df, m, |Periods|);
    FiledRankings(df, m, |Periods|);
    forall k | 0 <= k < |results| ensures IsSeasonTop(df, Windows[k], m, results[k].1) {
      SeasonRankingCorrect(df, Windows[k], m);
    }
  }

  /**
   * Both dictionaries of the seasonal comparison, by units sold and by
   * revenue, each computed from the same window filter.
   */
  method SeasonalRankings(df: seq<Row>) returns (resultsQty: seq<(string, seq<Entry<string>>)>, resultsTotal: seq<(string, seq<Entry<string>>)>)
    ensures Dicts.Keys(resultsQty) == Dicts.Keys(resultsTotal) == SeasonLabels()
    ensures |resultsQty| == |resultsTotal| == 4
    ensures forall k :: 0 <= k < 4 ==> IsSeasonTop(df, Windows[k], Qty, resultsQty[k].1)
    ensures forall k :: 0 <= k < 4 ==> IsSeasonTop(df, Windows[k], Total, resultsTotal[k].1)
  {
    resultsQty := SeasonalTop(df, Qty);
    resultsTotal := SeasonalTop(df, Total);
  }
}
