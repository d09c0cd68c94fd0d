/**
 * Calendar dates as the dashboard compares them. Every date in the sales
 * table is a midnight timestamp parsed from "YYYY-MM-DD" text, and the season
 * bounds are "YYYY-MM-DD" strings that the table library parses before it
 * compares, so comparing timestamps is comparing (year, month, day) triples
 * lexicographically.
 */
module Dates {
  import opened Wrappers

  datatype Date = Date(year: int, month: int, day: int)

  predicate IsLeapYear(y: int)
  {
    (y % 4 == 0 && y % 100 != 0) || y % 400 == 0
  }

  function DaysInMonth(y: int, m: int): (n: int)
    requires 1 <= m <= 12
    ensures 28 <= n <= 31
    ensures m == 2 <==> n < 30
  {
    if m == 2 then (if IsLeapYear(y) then 29 else 28)
    else if m == 4 || m == 6 || m == 9 || m == 11 then 30
    else 31
  }

  /** A day that exists in the Gregorian calendar. */
  predicate Valid(d: Date)
  {
    1 <= d.month <= 12 && 1 <= d.day <= DaysInMonth(d.year, d.month)
  }

  /** Chronological order, strict. */
  predicate Before(a: Date, b: Date)
  {
    || a.year < b.year
    || (a.year == b.year && a.month < b.month)
    || (a.year == b.year && a.month == b.month && a.day < b.day)
  }

  /** Chronological order, reflexive: the `<=` of two midnight timestamps. */
  predicate AtMost(a: Date, b: Date)
  {
    a == b || Before(a, b)
  }

  /**
   * The calendar day after `d`. It is the immediate successor: no valid day
   * lies strictly between `d` and it.
   */
  function NextDay(d: Date): (n: Date)
    requires Valid(d)
    ensures Valid(n) && Before(d, n)
    ensures forall e :: Valid(e) && Before(d, e) ==> AtMost(n, e)
  {
    if d.day < DaysInMonth(d.year, d.month) then Date(d.year, d.month, d.day + 1)
    else if d.month < 12 then Date(d.year, d.month + 1, 1)
    else Date(d.year + 1, 1, 1)
  }

  // ----- "YYYY-MM-DD" text -----

  predicate IsDigit(c: char)
  {
    '0' <= c <= '9'
  }

  predicate AllDigits(s: string)
  {
    forall i :: 0 <= i < |s| ==> IsDigit(s[i])
  }

  function Pow10(w: nat): (p: nat)
    ensures p >= 1
  {
    if w == 0 then 1 else 10 * Pow10(w - 1)
  }

  /** The number a string of decimal digits denotes. */
  function Number(ds: string): (n: nat)
    requires AllDigits(ds)
    ensures n < Pow10(|ds|)
  {
    if ds == [] then 0
    else 10 * Number(ds[..|ds| - 1]) + (ds[|ds| - 1] as int - '0' as int)
  }

  /** The last `w` decimal digits of `n`, zero-padded on the left. */
  function Digits(n: nat, w: nat): (s: string)
    ensures |s| == w && AllDigits(s)
  {
    if w == 0 then []
    else Digits(n / 10, w - 1) + [('0' as int + n % 10) as char]
  }

  lemma {:induction false} NumberOfDigits(n: nat, w: nat)
    requires n < Pow10(w)
    ensures Number(Digits(n, w)) == n
  {
    if w > 0 {
      var s := Digits(n, w);
      assert s[..|s| - 1] == Digits(n / 10, w - 1);
      NumberOfDigits(n / 10, w - 1);
    }
  }

  lemma {:induction false} DigitsOfNumber(ds: string)
    requires AllDigits(ds)
    ensures Digits(Number(ds), |ds|) == ds
  {
    if ds != [] {
      var init := ds[..|ds| - 1];
      assert AllDigits(init);
      var n := Number(ds);
      assert n / 10 == Number(init);
      assert n % 10 == ds[|ds| - 1] as int - '0' as int;
      DigitsOfNumber(init);
      assert ds == init + [ds[|ds| - 1]];
    }
  }

  /** The ISO text of a date with a four-digit year. */
  function FormatIso(d: Date): (s: string)
    requires Valid(d) && 0 <= d.year <= 9999
    ensures |s| == 10 && s[4] == '-' && s[7] == '-'
  {
    Digits(d.year, 4) + "-" + Digits(d.month, 2) + "-" + Digits(d.day, 2)
  }

  /**
   * Reads "YYYY-MM-DD". Anything else, and any day that does not exist, is
   * rejected, where the table library would raise a parse error.
   */
  function ParseIso(s: string): (r: Option<Date>)
    ensures r.Some? ==> Valid(r.value) && 0 <= r.value.year <= 9999
    ensures r.Some? ==> |s| == 10 && s[4] == '-' && s[7] == '-'
  {
    if |s| == 10 && s[4] == '-' && s[7] == '-'
       && AllDigits(s[..4]) && AllDigits(s[5..7]) && AllDigits(s[8..])
    then
      var d := Date(Number(s[..4]), Number(s[5..7]), Number(s[8..]));
      if Valid(d) then Some(d) else None
    else None
  }

  lemma ParseFormat(d: Date)
    requires Valid(d) && 0 <= d.year <= 9999
    ensures ParseIso(FormatIso(d)) == Some(d)
  {
    var s := FormatIso(d);
    assert s[..4] == Digits(d.year, 4);
    assert s[5..7] == Digits(d.month, 2);
    assert s[8..] == Digits(d.day, 2);
    NumberOfDigits(d.year, 4);
    NumberOfDigits(d.month, 2);
    NumberOfDigits(d.day, 2);
  }

  lemma FormatParse(s: string)
    requires ParseIso(s).Some?
    ensures FormatIso(ParseIso(s).value) == s
  {
    DigitsOfNumber(s[..4]);
    DigitsOfNumber(s[5..7]);
    DigitsOfNumber(s[8..]);
    assert s == s[..4] + "-" + s[5..7] + "-" + s[8..];
  }
}
