/** Naive (time-zone-less) timestamps of the proleptic Gregorian calendar with
    one-second resolution, the Python `datetime` operations the core uses on them,
    and the month arithmetic of the trend endpoints. */
module Calendar {
  import opened Common

  datatype DateTime = DateTime(year: int, month: int, day: int, second: int)

  predicate IsLeap(y: int)
  {
    y % 4 == 0 && (y % 100 != 0 || y % 400 == 0)
  }

  function DaysInMonth(y: int, m: int): (n: int)
    ensures 28 <= n <= 31
    ensures m == 2 ==> (n == 29 <==> IsLeap(y))
  {
    if m == 2 then (if IsLeap(y) then 29 else 28)
    else if m == 4 || m == 6 || m == 9 || m == 11 then 30
    else 31
  }

  predicate ValidDate(y: int, m: int, d: int)
  {
    1 <= m <= 12 && 1 <= d <= DaysInMonth(y, m)
  }

  predicate Valid(t: DateTime)
  {
    ValidDate(t.year, t.month, t.day) && 0 <= t.second < 86400
  }

  /** The year range of Python's `datetime` (MINYEAR..MAXYEAR). */
  predicate YearInRange(y: int)
  {
    1 <= y <= 9999
  }

  /** Python `datetime(y, m, d)`: `None` exactly where the constructor raises ValueError. */
  function Make(y: int, m: int, d: int): (r: Option<DateTime>)
    ensures r.Some? <==> YearInRange(y) && ValidDate(y, m, d)
    ensures r.Some? ==> Valid(r.value) && r.value == DateTime(y, m, d, 0)
  {
    if YearInRange(y) && ValidDate(y, m, d) then Some(DateTime(y, m, d, 0)) else None
  }

  /** A number that orders timestamps chronologically. */
  function Stamp(t: DateTime): int
  {
    ((t.year * 12 + t.month - 1) * 31 + t.day - 1) * 86400 + t.second
  }

  /** The position of a timestamp's calendar month in an unbounded month count. */
  function MonthIndex(t: DateTime): int
  {
    t.year * 12 + t.month - 1
  }

  /** Stamps of a month lie in one block, and blocks are ordered as the months are. */
  lemma StampWithinMonth(t: DateTime)
    requires Valid(t)
    ensures MonthIndex(t) * 31 * 86400 <= Stamp(t) < (MonthIndex(t) + 1) * 31 * 86400
  {
  }

  lemma StampMonthOrder(a: DateTime, b: DateTime)
    requires Valid(a) && Valid(b)
    ensures MonthIndex(a) < MonthIndex(b) ==> Stamp(a) < Stamp(b)
    ensures Stamp(a) < Stamp(b) ==> MonthIndex(a) <= MonthIndex(b)
  {
    StampWithinMonth(a);
    StampWithinMonth(b);
  }

  /** Equal stamps mean equal timestamps. */
  lemma StampInjective(a: DateTime, b: DateTime)
    requires Valid(a) && Valid(b) && Stamp(a) == Stamp(b)
    ensures a == b
  {
    StampMonthOrder(a, b);
    StampMonthOrder(b, a);
    assert a.year * 12 + a.month == b.year * 12 + b.month;
    assert a.month == b.month && a.year == b.year;
  }

  /** The calendar month `(year, month)` at a month index. */
  function MonthAt(index: int): (ym: (int, int))
    ensures 1 <= ym.1 <= 12
    ensures ym.0 * 12 + ym.1 - 1 == index
  {
    (index / 12, index % 12 + 1)
  }

  /** Midnight on the first of the month with index `m`. */
  function FirstOfIndex(m: int): (r: DateTime)
    ensures Valid(r) && MonthIndex(r) == m && r.day == 1 && r.second == 0
  {
    var ym := MonthAt(m);
    DateTime(ym.0, ym.1, 1, 0)
  }

  /** A timestamp is determined by its month index, day and second. */
  lemma FirstOfIndexOf(t: DateTime)
    requires Valid(t) && t.day == 1 && t.second == 0
    ensures FirstOfIndex(MonthIndex(t)) == t
  {
    var r := FirstOfIndex(MonthIndex(t));
    assert r.year * 12 + r.month == t.year * 12 + t.month;
    assert r.year == t.year && r.month == t.month;
  }

  /** Midnight on the first of a month is no later than a timestamp exactly when its month is no later. */
  lemma FirstOfMonthBefore(s: DateTime, d: DateTime)
    requires Valid(s) && Valid(d) && s.day == 1 && s.second == 0
    ensures Stamp(s) <= Stamp(d) <==> MonthIndex(s) <= MonthIndex(d)
  {
    StampMonthOrder(s, d);
    StampMonthOrder(d, s);
    if MonthIndex(s) == MonthIndex(d) {
      assert s.year * 12 + s.month == d.year * 12 + d.month;
      assert s.year == d.year && s.month == d.month;
    }
  }

  /** Midnight on the first of the month of `t`. */
  function StartOfMonth(t: DateTime): (r: DateTime)
    ensures Valid(t) ==> Valid(r) && MonthIndex(r) == MonthIndex(t) && Stamp(r) <= Stamp(t)
  {
    DateTime(t.year, t.month, 1, 0)
  }

  /** SQL `date(t)`: midnight of the day of `t`. */
  function StartOfDay(t: DateTime): (r: DateTime)
    ensures Valid(t) ==> Valid(r) && Stamp(r) <= Stamp(t)
  {
    DateTime(t.year, t.month, t.day, 0)
  }

  /** The last day of the month before `t`'s, at the same time of day. */
  function LastDayOfPreviousMonth(t: DateTime): (r: DateTime)
    requires Valid(t)
    ensures Valid(r) && MonthIndex(r) == MonthIndex(t) - 1 && r.second == t.second
  {
    if t.month == 1 then DateTime(t.year - 1, 12, 31, t.second)
    else DateTime(t.year, t.month - 1, DaysInMonth(t.year, t.month - 1), t.second)
  }

  /** `t - timedelta(days=n)`. */
  function SubDays(t: DateTime, n: nat): (r: DateTime)
    requires Valid(t)
    ensures Valid(r) && r.second == t.second
    ensures n > 0 ==> Stamp(r) < Stamp(t)
    ensures n == 0 ==> r == t
    decreases n
  {
    if n == 0 then t
    else if n < t.day then DateTime(t.year, t.month, t.day - n, t.second)
    else
      var r := SubDays(LastDayOfPreviousMonth(t), n - t.day);
      StampMonthOrder(LastDayOfPreviousMonth(t), t);
      r
  }

  /** Going back `t.day + 31 * k` days or more leaves the month of `t` and at least `k` more months behind. */
  lemma {:induction false} SubDaysCrossesMonths(t: DateTime, n: nat, k: nat)
    requires Valid(t) && n >= t.day + 31 * k
    ensures MonthIndex(SubDays(t, n)) <= MonthIndex(t) - (k + 1)
    decreases n
  {
    var p := LastDayOfPreviousMonth(t);
    assert SubDays(t, n) == SubDays(p, n - t.day);
    if k > 0 {
      assert n - t.day >= p.day + 31 * (k - 1);
      SubDaysCrossesMonths(p, n - t.day, k - 1);
    } else {
      SubDaysNeverLater(p, n - t.day);
    }
  }

  /** Going back in time never moves to a later month. */
  lemma {:induction false} SubDaysNeverLater(t: DateTime, n: nat)
    requires Valid(t)
    ensures MonthIndex(SubDays(t, n)) <= MonthIndex(t)
    decreases n
  {
    if n > 0 && n >= t.day {
      SubDaysNeverLater(LastDayOfPreviousMonth(t), n - t.day);
    }
  }

  /** A year back (365 days) lies at least eleven months back, and at least twelve from the first of a month. */
  lemma YearBackMonths(t: DateTime)
    requires Valid(t)
    ensures MonthIndex(SubDays(t, 365)) <= MonthIndex(t) - 11
    ensures t.day == 1 ==> MonthIndex(SubDays(t, 365)) <= MonthIndex(t) - 12
  {
    SubDaysCrossesMonths(t, 365, 10);
    if t.day == 1 {
      SubDaysCrossesMonths(t, 365, 11);
    }
  }

  /** `t - timedelta(days=365)`: before `t`, at least eleven months back, and twelve from the first of a month. */
  function YearBefore(t: DateTime): (r: DateTime)
    requires Valid(t)
    ensures Valid(r) && Stamp(r) < Stamp(t)
    ensures MonthIndex(r) <= MonthIndex(t) - 11
    ensures t.day == 1 ==> MonthIndex(r) <= MonthIndex(t) - 12
  {
    YearBackMonths(t);
    SubDays(t, 365)
  }

  /** `s` left-padded with '0' to at least `width` characters. */
  function ZeroPad(s: string, width: nat): (r: string)
    ensures |r| == if |s| >= width then |s| else width
    ensures r[|r| - |s|..] == s
    ensures forall i :: 0 <= i < |r| - |s| ==> r[i] == '0'
  {
    if |s| >= width then s
    else
      var pad := seq(width - |s|, _ => '0');
      assert (pad + s)[|pad|..] == s;
      pad + s
  }

  /** `strftime('%Y-%m-%d')`. */
  function IsoDate(t: DateTime): string
  {
    ZeroPad(DecimalString(NatOr0(t.year)), 4) + "-" + ZeroPad(DecimalString(NatOr0(t.month)), 2) + "-" +
    ZeroPad(DecimalString(NatOr0(t.day)), 2)
  }

  function NatOr0(n: int): nat
  {
    if n < 0 then 0 else n
  }

  /** A date of Python's range renders as four year digits, two month digits and two day digits, dash-separated. */
  lemma IsoDateShape(t: DateTime)
    requires Valid(t) && YearInRange(t.year)
    ensures |IsoDate(t)| == 10 && IsoDate(t)[4] == '-' && IsoDate(t)[7] == '-'
  {
    assert Pow10(4) == 10000 by { assert Pow10(2) == 100; }
    DecimalStringLength(t.year, 4);
    DecimalStringLength(t.month, 2);
    DecimalStringLength(t.day, 2);
    Dashed(ZeroPad(DecimalString(t.year), 4), ZeroPad(DecimalString(t.month), 2), ZeroPad(DecimalString(t.day), 2));
  }

  lemma Dashed(y: string, m: string, d: string)
    requires |y| == 4 && |m| == 2 && |d| == 2
    ensures var r := y + "-" + m + "-" + d; |r| == 10 && r[4] == '-' && r[7] == '-'
  {
  }

  function Pow10(k: nat): nat
  {
    if k == 0 then 1 else 10 * Pow10(k - 1)
  }

  /** A number below `10^k` has at most `k` digits. */
  lemma {:induction false} DecimalStringLength(n: nat, k: nat)
    requires 1 <= k && n < Pow10(k)
    ensures |DecimalString(n)| <= k
  {
    if n >= 10 {
      assert n / 10 < Pow10(k - 1);
      DecimalStringLength(n / 10, k - 1);
    }
  }
}
