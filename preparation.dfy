/**
 * The data-preparation listing the dashboard displays as its cleaning code:
 * it turns the raw sales file into the prepared table. Columns are taken as
 * already converted (dates parsed, quantities and prices integers, items
 * text); from there the listing adds the revenue column, sums per day and
 * item, keeps the ten items with the most units over the whole period,
 * joins each row with the day's temperature and attaches a clothing name to
 * each item by position.
 */
module Preparation {
  import opened Wrappers
  import opened Dates
  import opened Ranking
  import opened Records

  /** A row of the raw sales file. */
  datatype RawSale = RawSale(date: Date, store: string, item: string, qty: int, unitPrice: int, category: string)

  /** A sales row once `total` is added and the store and category are dropped. */
  datatype Sale = Sale(date: Date, item: string, qty: int, total: int)

  function Normalize(raws: seq<RawSale>): (sales: seq<Sale>)
    ensures |sales| == |raws|
    ensures forall i :: 0 <= i < |raws| ==>
      && sales[i].date == raws[i].date && sales[i].item == raws[i].item
      && sales[i].qty == raws[i].qty && sales[i].total == raws[i].qty * raws[i].unitPrice
  {
    if raws == [] then []
    else
      var r := raws[0];
      [Sale(r.date, r.item, r.qty, r.qty * r.unitPrice)] + Normalize(raws[1..])
  }

  // ----- per-(date, item) sums -----

  /** What a group-by over the (date, item) columns sees of the chosen measure. */
  function ByDayItem(sales: seq<Sale>, m: Measure): seq<((Date, string), int)>
  {
    if sales == [] then []
    else [((sales[0].date, sales[0].item), Pick(m, sales[0].qty, sales[0].total))] + ByDayItem(sales[1..], m)
  }

  /** One row of the per-day table: an item's units and revenue on one day. */
  datatype DayItem = DayItem(date: Date, item: string, qty: int, total: int)

  /** Units and revenue summed per (date, item), one row per pair. */
  function DailySums(sales: seq<Sale>): seq<DayItem>
  {
    var ks := Keys(ByDayItem(sales, Qty));
    seq(|ks|, i requires 0 <= i < |ks| =>
      DayItem(ks[i].0, ks[i].1, SumFor(ByDayItem(sales, Qty), ks[i]), SumFor(ByDayItem(sales, Total), ks[i])))
  }

  /** Some raw row records `item` on day `d`. */
  ghost predicate SoldOn(raws: seq<RawSale>, d: Date, item: string)
  {
    exists i :: 0 <= i < |raws| && raws[i].date == d && raws[i].item == item
  }

  /** Units of `item` sold on day `d`, over the raw rows. */
  function UnitsOn(raws: seq<RawSale>, d: Date, item: string): int
  {
    if raws == [] then 0
    else (if raws[0].date == d && raws[0].item == item then raws[0].qty else 0) + UnitsOn(raws[1..], d, item)
  }

  /** Revenue of `item` on day `d`: quantity times unit price, summed over the raw rows. */
  function RevenueOn(raws: seq<RawSale>, d: Date, item: string): int
  {
    if raws == [] then 0
    else
      (if raws[0].date == d && raws[0].item == item then raws[0].qty * raws[0].unitPrice else 0)
      + RevenueOn(raws[1..], d, item)
  }

  lemma {:induction false} DayGroups(raws: seq<RawSale>, d: Date, item: string)
    ensures Occurs(ByDayItem(Normalize(raws), Qty), (d, item)) <==> SoldOn(raws, d, item)
    ensures SumFor(ByDayItem(Normalize(raws), Qty), (d, item)) == UnitsOn(raws, d, item)
    ensures SumFor(ByDayItem(Normalize(raws), Total), (d, item)) == RevenueOn(raws, d, item)
  {
    if raws != [] {
      DayGroups(raws[1..], d, item);
      var s := Normalize(raws);
      assert Normalize(raws[1..]) == s[1..];
      var q := ((s[0].date, s[0].item), s[0].qty);
      var t := ((s[0].date, s[0].item), s[0].total);
      assert ByDayItem(s, Qty) == [q] + ByDayItem(s[1..], Qty);
      assert ByDayItem(s, Total) == [t] + ByDayItem(s[1..], Total);
      SumForCons(q, ByDayItem(s[1..], Qty), (d, item));
      SumForCons(t, ByDayItem(s[1..], Total), (d, item));
      OccursCons(q, ByDayItem(s[1..], Qty), (d, item));
      SoldOnTail(raws, d, item);
    }
  }

  lemma SoldOnTail(raws: seq<RawSale>, d: Date, item: string)
    requires raws != []
    ensures SoldOn(raws, d, item) <==> (raws[0].date == d && raws[0].item == item) || SoldOn(raws[1..], d, item)
  {
    if SoldOn(raws[1..], d, item) {
      var i :| 0 <= i < |raws[1..]| && raws[1..][i].date == d && raws[1..][i].item == item;
      assert raws[i + 1] == raws[1..][i];
    }
    if SoldOn(raws, d, item) && !(raws[0].date == d && raws[0].item == item) {
      var i :| 0 <= i < |raws| && raws[i].date == d && raws[i].item == item;
      assert raws[1..][i - 1] == raws[i];
    }
  }

  /**
   * The per-day table has one row per (date, item) pair that occurs in the
   * raw file, and each row carries that pair's units and its revenue
   * computed as quantity times unit price.
   */
  lemma DailySumsCorrect(raws: seq<RawSale>)
    ensures forall i, j :: 0 <= i < j < |DailySums(Normalize(raws))| ==>
      (DailySums(Normalize(raws))[i].date, DailySums(Normalize(raws))[i].item)
        != (DailySums(Normalize(raws))[j].date, DailySums(Normalize(raws))[j].item)
    ensures forall e :: e in DailySums(Normalize(raws)) ==>
      && SoldOn(raws, e.date, e.item)
      && e.qty == UnitsOn(raws, e.date, e.item)
      && e.total == RevenueOn(raws, e.date, e.item)
    ensures forall d, item :: SoldOn(raws, d, item) ==>
      exists e :: e in DailySums(Normalize(raws)) && e.date == d && e.item == item
  {
    var sales := Normalize(raws);
    var df2 := DailySums(sales);
    var ks := Keys(ByDayItem(sales, Qty));
    assert forall i :: 0 <= i < |df2| ==> (df2[i].date, df2[i].item) == ks[i];
    forall e | e in df2
      ensures SoldOn(raws, e.date, e.item) && e.qty == UnitsOn(raws, e.date, e.item)
      ensures e.total == RevenueOn(raws, e.date, e.item)
    {
      var i :| 0 <= i < |df2| && df2[i] == e;
      DayGroups(raws, e.date, e.item);
    }
    forall d, item | SoldOn(raws, d, item)
      ensures exists e :: e in df2 && e.date == d && e.item == item
    {
      DayGroups(raws, d, item);
      var i :| 0 <= i < |ks| && ks[i] == (d, item);
      assert df2[i] in df2;
    }
  }

  // ----- the global top ten by units -----

  /** What a group-by over the `item` column sees of the units sold. */
  function ItemUnits(sales: seq<Sale>): seq<(string, int)>
  {
    if sales == [] then []
    else [(sales[0].item, sales[0].qty)] + ItemUnits(sales[1..])
  }

  /** Some raw row records `item`, on any day. */
  ghost predicate Sold(raws: seq<RawSale>, item: string)
  {
    exists i :: 0 <= i < |raws| && raws[i].item == item
  }

  /** Units of `item` over the whole raw file. */
  function UnitsOf(raws: seq<RawSale>, item: string): int
  {
    if raws == [] then 0
    else (if raws[0].item == item then raws[0].qty else 0) + UnitsOf(raws[1..], item)
  }

  /** The item group-by has a group exactly for the items sold, each summing the item's units. */
  lemma {:induction false} ItemGroups(raws: seq<RawSale>, item: string)
    ensures Occurs(ItemUnits(Normalize(raws)), item) <==> Sold(raws, item)
    ensures SumFor(ItemUnits(Normalize(raws)), item) == UnitsOf(raws, item)
  {
    if raws != [] {
      ItemGroups(raws[1..], item);
      var s := Normalize(raws);
      assert Normalize(raws[1..]) == s[1..];
      var o := (s[0].item, s[0].qty);
      SumForCons(o, ItemUnits(s[1..]), item);
      OccursCons(o, ItemUnits(s[1..]), item);
      SoldTail(raws, item);
    }
  }

  lemma SoldTail(raws: seq<RawSale>, item: string)
    requires raws != []
    ensures Sold(raws, item) <==> raws[0].item == item || Sold(raws[1..], item)
  {
    if Sold(raws[1..], item) {
      var i :| 0 <= i < |raws[1..]| && raws[1..][i].item == item;
      assert raws[i + 1] == raws[1..][i];
    }
    if Sold(raws, item) && raws[0].item != item {
      var i :| 0 <= i < |raws| && raws[i].item == item;
      assert raws[1..][i - 1] == raws[i];
    }
  }

  /**
   * A correct top ten of the item group-by, read against the raw file:
   * ten items or fewer, each sold and carrying its units, in descending
   * order, and no sold item left out that beats the tenth.
   */
  lemma TopTenOfRaw(raws: seq<RawSale>, top: seq<Entry<string>>)
    requires IsTopN(ItemUnits(Normalize(raws)), 10, top)
    ensures |top| <= 10 && Distinct(KeysOf(top)) && SortedDesc(top)
    ensures forall i :: 0 <= i < |top| ==> Sold(raws, top[i].key) && top[i].sum == UnitsOf(raws, top[i].key)
    ensures forall item :: Sold(raws, item) && item !in KeysOf(top) ==>
      |top| == 10 && UnitsOf(raws, item) <= top[9].sum
  {
    forall i | 0 <= i < |top| ensures Sold(raws, top[i].key) && top[i].sum == UnitsOf(raws, top[i].key) {
      ItemGroups(raws, top[i].key);
    }
    forall item | Sold(raws, item) && item !in KeysOf(top)
      ensures |top| == 10 && UnitsOf(raws, item) <= top[9].sum
    {
      ItemGroups(raws, item);
    }
  }

  /** The ten items with the most units over the whole period, ties in one admissible order. */
  function TopItems(sales: seq<Sale>): (top: seq<Entry<string>>)
    ensures IsTopN(ItemUnits(sales), 10, top)
  {
    TopNCorrect(ItemUnits(sales), 10);
    TopN(ItemUnits(sales), 10)
  }

  /** The rows whose item is one of `items`, in their original order. */
  function KeepItems(df2: seq<DayItem>, items: seq<string>): (df1: seq<DayItem>)
    ensures forall x :: multiset(df1)[x] == if x.item in items then multiset(df2)[x] else 0
  {
    if df2 == [] then []
    else
      assert df2 == [df2[0]] + df2[1..];
      (if df2[0].item in items then [df2[0]] else []) + KeepItems(df2[1..], items)
  }

  // ----- the join with the temperature series -----

  /** A row of the temperature file. */
  datatype Temperature = Temperature(date: Date, country: string, celsius: real)

  /** A per-day row with the day's temperature attached. */
  datatype Joined = Joined(date: Date, item: string, qty: int, total: int, celsius: real)

  function Combine(e: DayItem, t: Temperature): Joined
  {
    Joined(e.date, e.item, e.qty, e.total, t.celsius)
  }

  /** The number of temperature rows dated `d`. */
  function RowsOn(temps: seq<Temperature>, d: Date): nat
  {
    if temps == [] then 0
    else (if temps[0].date == d then 1 else 0) + RowsOn(temps[1..], d)
  }

  /** The rows one per-day row yields in the join: one per temperature row of its day. */
  function Matches(e: DayItem, temps: seq<Temperature>): (r: seq<Joined>)
    ensures forall j :: j in r <==> exists t :: t in temps && t.date == e.date && j == Combine(e, t)
    ensures |r| == RowsOn(temps, e.date)
  {
    if temps == [] then []
    else
      var rest := Matches(e, temps[1..]);
      assert forall t :: t in temps <==> t == temps[0] || t in temps[1..];
      (if temps[0].date == e.date then [Combine(e, temps[0])] else []) + rest
  }

  /** Inner join on the date: every pair of rows with the same day, and nothing else. */
  function InnerJoin(left: seq<DayItem>, temps: seq<Temperature>): (r: seq<Joined>)
    ensures forall j :: j in r <==>
      exists e, t :: e in left && t in temps && e.date == t.date && j == Combine(e, t)
  {
    if left == [] then []
    else
      var rest := InnerJoin(left[1..], temps);
      assert forall e :: e in left <==> e == left[0] || e in left[1..];
      Matches(left[0], temps) + rest
  }

  predicate DistinctDays(temps: seq<Temperature>)
  {
    forall i, j :: 0 <= i < j < |temps| ==> temps[i].date != temps[j].date
  }

  lemma {:induction false} NoMatches(e: DayItem, temps: seq<Temperature>)
    requires forall k :: 0 <= k < |temps| ==> temps[k].date != e.date
    ensures Matches(e, temps) == []
  {
    if temps != [] {
      NoMatches(e, temps[1..]);
    }
  }

  lemma {:induction false} MatchesAtMostOne(e: DayItem, temps: seq<Temperature>)
    requires DistinctDays(temps)
    ensures |Matches(e, temps)| <= 1
  {
    if temps != [] {
      MatchesAtMostOne(e, temps[1..]);
      if temps[0].date == e.date {
        forall k | 0 <= k < |temps[1..]| ensures temps[1..][k].date != e.date {
          assert temps[0].date != temps[k + 1].date;
        }
        NoMatches(e, temps[1..]);
      }
    }
  }

  /** With one temperature row per day, a row whose day has one joins into exactly one row. */
  lemma {:induction false} MatchesExactlyOne(e: DayItem, temps: seq<Temperature>, t: Temperature)
    requires DistinctDays(temps) && t in temps && t.date == e.date
    ensures Matches(e, temps) == [Combine(e, t)]
  {
    if temps[0].date == e.date {
      forall k | 0 <= k < |temps[1..]| ensures temps[1..][k].date != e.date {
        assert temps[0].date != temps[k + 1].date;
      }
      NoMatches(e, temps[1..]);
      assert t in temps[1..] ==> t.date != e.date;
      assert t == temps[0];
    } else {
      assert t in temps[1..];
      MatchesExactlyOne(e, temps[1..], t);
    }
  }

  /**
   * With one temperature row per day, the join carries every per-day row of
   * a day with a temperature row exactly as often as the left table does.
   */
  lemma {:induction false} JoinKeepsMultiplicity(left: seq<DayItem>, temps: seq<Temperature>, e: DayItem, t: Temperature)
    requires DistinctDays(temps) && t in temps && t.date == e.date
    ensures multiset(InnerJoin(left, temps))[Combine(e, t)] == multiset(left)[e]
  {
    if left != [] {
      JoinKeepsMultiplicity(left[1..], temps, e, t);
      JoinCons(left, temps);
      CountSplit([left[0]], left[1..], e);
      CountSplit(Matches(left[0], temps), InnerJoin(left[1..], temps), Combine(e, t));
      assert [left[0]] + left[1..] == left;
      if left[0] == e {
        MatchesExactlyOne(e, temps, t);
      } else {
        MatchesOther(left[0], temps, e, t);
      }
    }
  }

  lemma JoinCons(left: seq<DayItem>, temps: seq<Temperature>)
    requires left != []
    ensures InnerJoin(left, temps) == Matches(left[0], temps) + InnerJoin(left[1..], temps)
  {
  }

  lemma CountSplit<T>(a: seq<T>, b: seq<T>, x: T)
    ensures multiset(a + b)[x] == multiset(a)[x] + multiset(b)[x]
  {
  }

  /** A per-day row's join holds no combination made from another row. */
  lemma MatchesOther(e0: DayItem, temps: seq<Temperature>, e: DayItem, t: Temperature)
    requires e0 != e
    ensures multiset(Matches(e0, temps))[Combine(e, t)] == 0
  {
    assert Combine(e, t) !in Matches(e0, temps);
  }

  /** An element of a sequence without repeats occurs in it exactly once. */
  lemma {:induction false} OnceIfDistinct<T>(s: seq<T>, x: T)
    requires forall i, j :: 0 <= i < j < |s| ==> s[i] != s[j]
    requires x in s
    ensures multiset(s)[x] == 1
  {
    assert s == [s[0]] + s[1..];
    if s[0] == x {
      forall k | 0 <= k < |s[1..]| ensures s[1..][k] != x {
        assert s[0] != s[k + 1];
      }
      assert x !in s[1..];
    } else {
      forall i, j | 0 <= i < j < |s[1..]| ensures s[1..][i] != s[1..][j] {
        assert s[i + 1] != s[j + 1];
      }
      OnceIfDistinct(s[1..], x);
    }
  }

  /**
   * With one temperature row per day, a listed item's per-day row whose day
   * has a temperature row appears in the join exactly once: one joined row
   * per (date, item) pair.
   */
  lemma JoinedOnce(raws: seq<RawSale>, temps: seq<Temperature>, items: seq<string>, e: DayItem, t: Temperature)
    requires DistinctDays(temps)
    requires e in DailySums(Normalize(raws)) && e.item in items
    requires t in temps && t.date == e.date
    ensures multiset(InnerJoin(KeepItems(DailySums(Normalize(raws)), items), temps))[Combine(e, t)] == 1
  {
    var df2 := DailySums(Normalize(raws));
    DailySumsCorrect(raws);
    forall i, j | 0 <= i < j < |df2| ensures df2[i] != df2[j] {
      assert (df2[i].date, df2[i].item) != (df2[j].date, df2[j].item);
    }
    OnceIfDistinct(df2, e);
    JoinKeepsMultiplicity(KeepItems(df2, items), temps, e, t);
  }

  /**
   * With one temperature row per day, no two rows of the joined table share
   * a (date, item) pair.
   */
  lemma JoinedPairsDistinct(raws: seq<RawSale>, temps: seq<Temperature>, items: seq<string>)
    requires DistinctDays(temps)
    ensures forall i, j :: 0 <= i < j < |InnerJoin(KeepItems(DailySums(Normalize(raws)), items), temps)| ==>
      var joined := InnerJoin(KeepItems(DailySums(Normalize(raws)), items), temps);
      (joined[i].date, joined[i].item) != (joined[j].date, joined[j].item)
  {
    var df2 := DailySums(Normalize(raws));
    var joined := InnerJoin(KeepItems(df2, items), temps);
    forall i, j | 0 <= i < j < |joined|
      ensures (joined[i].date, joined[i].item) != (joined[j].date, joined[j].item)
    {
      var e, t := JoinedFrom(raws, temps, items, joined[i]);
      var e2, t2 := JoinedFrom(raws, temps, items, joined[j]);
      SamePairSameRow(raws, temps, e, t, e2, t2);
      JoinedOnce(raws, temps, items, e, t);
      CountOfRepeated(joined, i, j);
    }
  }

  /** The per-day row and the temperature row a joined row comes from. */
  lemma JoinedFrom(raws: seq<RawSale>, temps: seq<Temperature>, items: seq<string>, j: Joined) returns (e: DayItem, t: Temperature)
    requires j in InnerJoin(KeepItems(DailySums(Normalize(raws)), items), temps)
    ensures e in DailySums(Normalize(raws)) && e.item in items
    ensures t in temps && t.date == e.date && j == Combine(e, t)
  {
    e, t :| e in KeepItems(DailySums(Normalize(raws)), items) && t in temps && e.date == t.date && j == Combine(e, t);
    KeptRowFrom(DailySums(Normalize(raws)), items, e);
  }

  /** Two combinations with the same (date, item) pair are the same combination. */
  lemma SamePairSameRow(raws: seq<RawSale>, temps: seq<Temperature>, e: DayItem, t: Temperature, e2: DayItem, t2: Temperature)
    requires DistinctDays(temps)
    requires e in DailySums(Normalize(raws)) && e2 in DailySums(Normalize(raws))
    requires t in temps && t.date == e.date && t2 in temps && t2.date == e2.date
    ensures (e.date, e.item) == (e2.date, e2.item) ==> Combine(e, t) == Combine(e2, t2)
  {
    var df2 := DailySums(Normalize(raws));
    DailySumsCorrect(raws);
    var p :| 0 <= p < |df2| && df2[p] == e;
    var q :| 0 <= q < |df2| && df2[q] == e2;
    var a :| 0 <= a < |temps| && temps[a] == t;
    var b :| 0 <= b < |temps| && temps[b] == t2;
    assert (e.date, e.item) == (e2.date, e2.item) ==> p == q && a == b;
  }

  /** With one temperature row per day, the join never adds rows. */
  lemma {:induction false} JoinAtMostOnePerRow(left: seq<DayItem>, temps: seq<Temperature>)
    requires DistinctDays(temps)
    ensures |InnerJoin(left, temps)| <= |left|
  {
    if left != [] {
      MatchesAtMostOne(left[0], temps);
      JoinAtMostOnePerRow(left[1..], temps);
    }
  }

  // ----- the clothing names -----

  const ClothNames: seq<string> := [
    "canotta bianca", "maglietta", "wind-giacca", "maglione", "camicia",
    "pantalone", "canotta nera", "giubotto", "calzini", "mutande"
  ]

  /**
   * A dictionary built from two lists zipped together: the pairs stop with
   * the shorter list, and when a key repeats, its last pair wins.
   */
  function ZipDict(ks: seq<string>, vs: seq<string>): map<string, string>
  {
    if ks == [] || vs == [] then map[]
    else
      var rest := ZipDict(ks[1..], vs[1..]);
      if ks[0] in rest then rest else rest[ks[0] := vs[0]]
  }

  /** The keys are exactly those within the shorter list's length. */
  lemma {:induction false} ZipDictKeys(ks: seq<string>, vs: seq<string>)
    ensures forall k :: k in ZipDict(ks, vs) <==> k in ks[..Min(|ks|, |vs|)]
  {
    if ks != [] && vs != [] {
      var n := Min(|ks|, |vs|);
      ZipDictKeys(ks[1..], vs[1..]);
      assert ks[1..][..Min(|ks| - 1, |vs| - 1)] == ks[1..n];
      assert ks[..n] == [ks[0]] + ks[1..n];
    }
  }

  /** A key that does not repeat later maps to the value at its own position. */
  lemma {:induction false} ZipDictCorrect(ks: seq<string>, vs: seq<string>)
    ensures forall i :: 0 <= i < Min(|ks|, |vs|) && ks[i] !in ks[i + 1..Min(|ks|, |vs|)] ==>
      ks[i] in ZipDict(ks, vs) && ZipDict(ks, vs)[ks[i]] == vs[i]
  {
    if ks != [] && vs != [] {
      var n := Min(|ks|, |vs|);
      var tk, tv := ks[1..], vs[1..];
      ZipDictCorrect(tk, tv);
      ZipDictKeys(tk, tv);
      var d := ZipDict(ks, vs);
      assert tk[..Min(|tk|, |tv|)] == ks[1..n];
      forall i | 0 <= i < n && ks[i] !in ks[i + 1..n]
        ensures ks[i] in d && d[ks[i]] == vs[i]
      {
        if i > 0 {
          assert tk[i - 1] == ks[i] && tv[i - 1] == vs[i];
          assert tk[i..Min(|tk|, |tv|)] == ks[i + 1..n];
        }
      }
    }
  }

  /** The item-to-name mapping: a missing name where the item has none. */
  function ClothOf(names: map<string, string>, item: string): Option<string>
  {
    if item in names then Some(names[item]) else None
  }

  /** Each joined row with its item's clothing name. */
  function AttachCloth(joined: seq<Joined>, names: map<string, string>): seq<Row>
  {
    seq(|joined|, i requires 0 <= i < |joined| =>
      Row(joined[i].date, joined[i].item, joined[i].qty, joined[i].total, joined[i].celsius, ClothOf(names, joined[i].item)))
  }

  // ----- the whole listing -----

  /**
   * The prepared table for a given correct top ten of the raw file. The
   * library's sort leaves the order of items with equal units open, so any
   * admissible ranking may be passed; `TopItems` computes one.
   */
  function Prepare(raws: seq<RawSale>, temps: seq<Temperature>, top: seq<Entry<string>>): seq<Row>
    requires IsTopN(ItemUnits(Normalize(raws)), 10, top)
  {
    var sales := Normalize(raws);
    var df1 := KeepItems(DailySums(sales), KeysOf(top));
    var joined := InnerJoin(df1, temps);
    AttachCloth(joined, ZipDict(KeysOf(top), ClothNames))
  }

  /** The i-th ranked item gets the i-th name. */
  lemma NamesByPosition(top: seq<Entry<string>>)
    requires |top| <= |ClothNames| && Distinct(KeysOf(top))
    ensures forall i :: 0 <= i < |top| ==> ClothOf(ZipDict(KeysOf(top), ClothNames), top[i].key) == Some(ClothNames[i])
  {
    var ks := KeysOf(top);
    ZipDictCorrect(ks, ClothNames);
    forall i | 0 <= i < |top| ensures ks[i] !in ks[i + 1..|top|] {
      forall j | i + 1 <= j < |top| ensures ks[j] != ks[i] {
      }
    }
  }

  /** A per-day row of a listed item survives the filter. */
  lemma KeptRow(df2: seq<DayItem>, items: seq<string>, e: DayItem)
    requires e in df2 && e.item in items
    ensures e in KeepItems(df2, items)
  {
    assert multiset(df2)[e] > 0;
    assert multiset(KeepItems(df2, items))[e] > 0;
  }

  /** A row that survives the filter is a per-day row of a listed item. */
  lemma KeptRowFrom(df2: seq<DayItem>, items: seq<string>, e: DayItem)
    requires e in KeepItems(df2, items)
    ensures e in df2 && e.item in items
  {
    assert multiset(KeepItems(df2, items))[e] > 0;
    assert multiset(df2)[e] > 0;
  }

  /** The per-day row of a (date, item) pair sold in the raw file. */
  lemma DayRowFor(raws: seq<RawSale>, d: Date, item: string) returns (e: DayItem)
    requires SoldOn(raws, d, item)
    ensures e in DailySums(Normalize(raws)) && e.date == d && e.item == item
  {
    DailySumsCorrect(raws);
    e :| e in DailySums(Normalize(raws)) && e.date == d && e.item == item;
  }

  /** The joined row a prepared row comes from. */
  lemma PreparedFrom(raws: seq<RawSale>, temps: seq<Temperature>, top: seq<Entry<string>>, x: Row) returns (e: DayItem, t: Temperature)
    requires IsTopN(ItemUnits(Normalize(raws)), 10, top) && x in Prepare(raws, temps, top)
    ensures e in KeepItems(DailySums(Normalize(raws)), KeysOf(top))
    ensures t in temps && e.date == t.date
    ensures x == Row(e.date, e.item, e.qty, e.total, t.celsius,
      ClothOf(ZipDict(KeysOf(top), ClothNames), e.item))
  {
    var df1 := KeepItems(DailySums(Normalize(raws)), KeysOf(top));
    var joined := InnerJoin(df1, temps);
    var out := AttachCloth(joined, ZipDict(KeysOf(top), ClothNames));
    var i :| 0 <= i < |out| && out[i] == x;
    assert joined[i] in joined;
    e, t :| e in df1 && t in temps && e.date == t.date && joined[i] == Combine(e, t);
  }

  /**
   * Every prepared row is an item of the global top ten on a day of the
   * temperature series, with that day's temperature and that day's units
   * and revenue from the raw file.
   */
  lemma PrepareSound(raws: seq<RawSale>, temps: seq<Temperature>, top: seq<Entry<string>>, x: Row)
    requires IsTopN(ItemUnits(Normalize(raws)), 10, top) && x in Prepare(raws, temps, top)
    ensures x.item in KeysOf(top)
    ensures exists t :: t in temps && t.date == x.date && t.celsius == x.celsius
    ensures SoldOn(raws, x.date, x.item)
    ensures x.qty == UnitsOn(raws, x.date, x.item) && x.total == RevenueOn(raws, x.date, x.item)
  {
    var e, t := PreparedFrom(raws, temps, top, x);
    KeptRowFrom(DailySums(Normalize(raws)), KeysOf(top), e);
    DayRowSums(raws, e);
    assert t in temps && t.date == x.date && t.celsius == x.celsius;
  }

  /** Every prepared row carries the name at its item's rank in the global top ten. */
  lemma PrepareNamed(raws: seq<RawSale>, temps: seq<Temperature>, top: seq<Entry<string>>, x: Row)
    requires IsTopN(ItemUnits(Normalize(raws)), 10, top) && x in Prepare(raws, temps, top)
    ensures exists j ::
      && 0 <= j < |top|
      && top[j].key == x.item
      && x.cloth == Some(ClothNames[j])
  {
    var e, t := PreparedFrom(raws, temps, top, x);
    KeptRowFrom(DailySums(Normalize(raws)), KeysOf(top), e);
    assert |ClothNames| == 10;
    NamedByRank(top, ClothNames, e.item);
  }

  /** A listed item is named after its rank. */
  lemma NamedByRank(top: seq<Entry<string>>, names: seq<string>, item: string)
    requires |top| <= |names| && Distinct(KeysOf(top)) && item in KeysOf(top)
    ensures exists j :: 0 <= j < |top| && top[j].key == item && ClothOf(ZipDict(KeysOf(top), names), item) == Some(names[j])
  {
    var ks := KeysOf(top);
    ZipDictCorrect(ks, names);
    var j :| 0 <= j < |top| && ks[j] == item;
    assert ks[..Min(|ks|, |names|)] == ks;
    forall i | j + 1 <= i < |top| ensures ks[i] != ks[j] {
    }
    assert ks[j] !in ks[j + 1..|top|];
  }

  /** A per-day row carries its pair's units and revenue from the raw file. */
  lemma DayRowSums(raws: seq<RawSale>, e: DayItem)
    requires e in DailySums(Normalize(raws))
    ensures SoldOn(raws, e.date, e.item)
    ensures e.qty == UnitsOn(raws, e.date, e.item) && e.total == RevenueOn(raws, e.date, e.item)
  {
    var df2 := DailySums(Normalize(raws));
    var i :| 0 <= i < |df2| && df2[i] == e;
    DayGroups(raws, e.date, e.item);
  }

  /**
   * Every pair of a top-ten item and a day on which it sold, with a
   * temperature row for that day, yields a prepared row.
   */
  lemma PrepareComplete(raws: seq<RawSale>, temps: seq<Temperature>, top: seq<Entry<string>>, d: Date, item: string, t: Temperature)
    requires IsTopN(ItemUnits(Normalize(raws)), 10, top)
    requires SoldOn(raws, d, item) && item in KeysOf(top)
    requires t in temps && t.date == d
    ensures exists x :: x in Prepare(raws, temps, top) && x.date == d && x.item == item && x.celsius == t.celsius
  {
    var e := DayRowFor(raws, d, item);
    var df1 := KeepItems(DailySums(Normalize(raws)), KeysOf(top));
    KeptRow(DailySums(Normalize(raws)), KeysOf(top), e);
    var joined := InnerJoin(df1, temps);
    assert Combine(e, t) in joined;
    var i :| 0 <= i < |joined| && joined[i] == Combine(e, t);
    var out := AttachCloth(joined, ZipDict(KeysOf(top), ClothNames));
    assert out[i] in out;
  }
}
