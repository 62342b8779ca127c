// The Gregorian calendar of `datetime.date`: month lengths as in the table of section 5.7 of RFC 3339, day by day
// succession, weekdays.
module Gregorian {

  predicate IsLeap(y: int) {
    y % 4 == 0 && (y % 100 != 0 || y % 400 == 0)
  }

  function MonthLength(y: int, m: int): int
    requires 1 <= m <= 12
  {
    if m == 2 then (if IsLeap(y) then 29 else 28)
    else if m == 4 || m == 6 || m == 9 || m == 11 then 30
    else 31
  }

  datatype Date = Date(y: int, m: int, d: int)

  predicate Valid(t: Date) {
    1 <= t.m <= 12 && 1 <= t.d <= MonthLength(t.y, t.m)
  }

  /** Days before January 1 of year `y`, counted from January 1 of year 1. */
  function DaysBeforeYear(y: int): int {
    (y - 1) * 365 + (y - 1) / 4 - (y - 1) / 100 + (y - 1) / 400
  }

  function DaysBeforeMonth(y: int, m: int): int
    requires 1 <= m <= 13
    decreases m
  {
    if m == 1 then 0 else DaysBeforeMonth(y, m - 1) + MonthLength(y, m - 1)
  }

  /** `date.toordinal()` */
  function Ordinal(t: Date): int
    requires Valid(t)
  {
    DaysBeforeYear(t.y) + DaysBeforeMonth(t.y, t.m) + t.d
  }

  /** `date.weekday()`: Monday is 0. */
  function Weekday(t: Date): (w: int)
    requires Valid(t)
    ensures 0 <= w < 7
  {
    (Ordinal(t) + 6) % 7
  }

  function NextDay(t: Date): (n: Date)
    requires Valid(t)
    ensures Valid(n)
  {
    if t.d < MonthLength(t.y, t.m) then Date(t.y, t.m, t.d + 1)
    else if t.m < 12 then Date(t.y, t.m + 1, 1)
    else Date(t.y + 1, 1, 1)
  }

  /** `date + timedelta(days=n)` */
  function AddDays(t: Date, n: nat): (r: Date)
    requires Valid(t)
    ensures Valid(r)
  {
    if n == 0 then t else NextDay(AddDays(t, n - 1))
  }

  /** The table of section 5.7 of RFC 3339. */
  lemma MonthTable(y: int, m: int)
    requires 1 <= m <= 12
    ensures MonthLength(y, m)
            == [31, if IsLeap(y) then 29 else 28, 31, 30, 31, 30, 31, 31, 30, 31, 30, 31][m - 1]
  {
  }

  lemma NoDaysBeforeYear1(y: int)
    requires y == 1
    ensures DaysBeforeYear(y) == 0
  {
    QuotientUnique(y - 1, 4, 0, 0);
    QuotientUnique(y - 1, 100, 0, 0);
    QuotientUnique(y - 1, 400, 0, 0);
  }

  /** The calendar is anchored: January 1 of year 1 is day 1 and a Monday. */
  lemma FirstDay(t: Date)
    requires t.y == 1 && t.m == 1 && t.d == 1
    ensures Valid(t) && Ordinal(t) == 1 && Weekday(t) == 0
  {
    NoDaysBeforeYear1(1);
    assert DaysBeforeMonth(t.y, t.m) == 0;
    QuotientUnique(7, 7, 1, 0);
  }

  lemma DaysBefore1970()
    ensures DaysBeforeYear(1970) == 719162
  {
    QuotientUnique(1969, 4, 492, 1);
    QuotientUnique(1969, 100, 19, 69);
    QuotientUnique(1969, 400, 4, 369);
  }

  /** January 1, 1970 is a Thursday. */
  lemma Epoch(t: Date)
    requires t.y == 1970 && t.m == 1 && t.d == 1
    ensures Valid(t) && Ordinal(t) == 719163 && Weekday(t) == 3
  {
    DaysBefore1970();
    assert DaysBeforeMonth(t.y, t.m) == 0;
    QuotientUnique(719169, 7, 102738, 3);
  }

  lemma YearLength(y: int)
    ensures DaysBeforeYear(y + 1) - DaysBeforeYear(y) == (if IsLeap(y) then 366 else 365)
  {
    QuotientStep(y, 4);
    QuotientStep(y, 100);
    QuotientStep(y, 400);
    MultipleOf(y, 400, 100, 4);
    MultipleOf(y, 100, 4, 25);
    LeapDays(y, y % 4, y % 100, y % 400);
  }

  lemma LeapDays(y: int, by4: int, by100: int, by400: int)
    requires by4 == y % 4 && by100 == y % 100 && by400 == y % 400
    requires (by400 == 0 ==> by100 == 0) && (by100 == 0 ==> by4 == 0)
    ensures (if by4 == 0 then 1 else 0) - (if by100 == 0 then 1 else 0) + (if by400 == 0 then 1 else 0)
            == if IsLeap(y) then 1 else 0
  {
  }

  /** A multiple of `n`, which is `k` times `m`, is a multiple of `k`. */
  lemma MultipleOf(y: int, n: int, k: int, m: int)
    requires k > 0 && m > 0 && n == k * m
    ensures y % n == 0 ==> y % k == 0
  {
    if y % n == 0 {
      var q := y / n;
      assert y == n * q;
      assert n * q == (m * q) * k;
      QuotientUnique(y, k, m * q, 0);
    }
  }

  lemma QuotientStep(y: int, k: int)
    requires k > 1
    ensures y / k - (y - 1) / k == (if y % k == 0 then 1 else 0)
  {
    var q, r := y / k, y % k;
    if r == 0 {
      assert y - 1 == (q - 1) * k + (k - 1);
      QuotientUnique(y - 1, k, q - 1, k - 1);
    } else {
      assert y - 1 == q * k + (r - 1);
      QuotientUnique(y - 1, k, q, r - 1);
    }
  }

  lemma QuotientUnique(x: int, k: int, q: int, r: int)
    requires k > 0 && 0 <= r < k && x == q * k + r
    ensures x / k == q
  {
    var d := x / k - q;
    assert d * k == r - x % k;
    MultipleBounds(d, k);
  }

  lemma MultipleBounds(d: int, k: int)
    requires k > 0
    ensures d > 0 ==> d * k >= k
    ensures d < 0 ==> d * k <= -k
  {
  }

  lemma MonthsMakeYear(y: int)
    ensures DaysBeforeMonth(y, 13) == (if IsLeap(y) then 366 else 365)
  {
    assert DaysBeforeMonth(y, 4) == 59 + (if IsLeap(y) then 1 else 0) + 31;
    assert DaysBeforeMonth(y, 7) == DaysBeforeMonth(y, 4) + 91;
    assert DaysBeforeMonth(y, 10) == DaysBeforeMonth(y, 7) + 92;
    assert DaysBeforeMonth(y, 13) == DaysBeforeMonth(y, 10) + 92;
  }

  /** The next day has the next ordinal. */
  lemma NextDayOrdinal(t: Date)
    requires Valid(t)
    ensures Ordinal(NextDay(t)) == Ordinal(t) + 1
  {
    if t.d == MonthLength(t.y, t.m) && t.m == 12 {
      MonthsMakeYear(t.y);
      YearLength(t.y);
    }
  }

  lemma {:induction false} AddDaysOrdinal(t: Date, n: nat)
    requires Valid(t)
    ensures Ordinal(AddDays(t, n)) == Ordinal(t) + n
  {
    if n > 0 {
      AddDaysOrdinal(t, n - 1);
      NextDayOrdinal(AddDays(t, n - 1));
    }
  }

  lemma {:induction false} AddDaysAssoc(t: Date, a: nat, b: nat)
    requires Valid(t)
    ensures AddDays(AddDays(t, a), b) == AddDays(t, a + b)
    decreases b
  {
    if b > 0 {
      AddDaysAssoc(t, a, b - 1);
    }
  }

  // ---- The order of dates ----

  predicate DateLeq(a: Date, b: Date) {
    a.y < b.y || (a.y == b.y && (a.m < b.m || (a.m == b.m && a.d <= b.d)))
  }

  lemma {:induction false} MonthsGrow(y: int, m: int, n: int)
    requires 1 <= m < n <= 13
    ensures DaysBeforeMonth(y, m) + MonthLength(y, m) <= DaysBeforeMonth(y, n)
    decreases n
  {
    if m + 1 < n {
      MonthsGrow(y, m, n - 1);
    }
  }

  lemma {:induction false} YearsGrow(y: int, z: int)
    requires y <= z
    ensures DaysBeforeYear(y) <= DaysBeforeYear(z)
    decreases z - y
  {
    if y < z {
      YearsGrow(y, z - 1);
      YearLength(z - 1);
    }
  }

  lemma DayWithinYear(t: Date)
    requires Valid(t)
    ensures DaysBeforeYear(t.y) < Ordinal(t) <= DaysBeforeYear(t.y + 1)
  {
    MonthsGrow(t.y, t.m, 13);
    MonthsMakeYear(t.y);
    YearLength(t.y);
    if t.m > 1 {
      MonthsGrow(t.y, 1, t.m);
    }
  }

  lemma EarlierYear(a: Date, b: Date)
    requires Valid(a) && Valid(b) && a.y < b.y
    ensures Ordinal(a) < Ordinal(b)
  {
    DayWithinYear(a);
    DayWithinYear(b);
    YearsGrow(a.y + 1, b.y);
  }

  lemma EarlierIsLess(a: Date, b: Date)
    requires Valid(a) && Valid(b) && DateLeq(a, b) && a != b
    ensures Ordinal(a) < Ordinal(b)
  {
    if a.y < b.y {
      EarlierYear(a, b);
    } else if a.m < b.m {
      MonthsGrow(a.y, a.m, b.m);
    }
  }

  /** The order of dates by year, month and day is the order of their day numbers. */
  lemma FieldOrderIsDayOrder(a: Date, b: Date)
    requires Valid(a) && Valid(b)
    ensures DateLeq(a, b) <==> Ordinal(a) <= Ordinal(b)
  {
    if a != b {
      if DateLeq(a, b) {
        EarlierIsLess(a, b);
      } else {
        EarlierIsLess(b, a);
      }
    }
  }

  lemma OrdinalIsUnique(a: Date, b: Date)
    requires Valid(a) && Valid(b) && Ordinal(a) == Ordinal(b)
    ensures a == b
  {
    FieldOrderIsDayOrder(a, b);
    FieldOrderIsDayOrder(b, a);
  }

  /** Every later date is reached by counting days. */
  lemma DaysReach(from: Date, to: Date)
    requires Valid(from) && Valid(to) && Ordinal(from) <= Ordinal(to)
    ensures AddDays(from, Ordinal(to) - Ordinal(from)) == to
  {
    AddDaysOrdinal(from, Ordinal(to) - Ordinal(from));
    OrdinalIsUnique(AddDays(from, Ordinal(to) - Ordinal(from)), to);
  }

  // ---- Months and weekdays ----

  /** Inside a month, adding days just counts. */
  lemma {:induction false} AddWithinMonth(t: Date, n: nat)
    requires Valid(t) && t.d + n <= MonthLength(t.y, t.m)
    ensures AddDays(t, n) == Date(t.y, t.m, t.d + n)
  {
    if n > 0 {
      AddWithinMonth(t, n - 1);
    }
  }

  function NextMonth(first: Date): (n: Date)
    requires Valid(first)
    ensures Valid(n) && n.d == 1
  {
    if first.m < 12 then Date(first.y, first.m + 1, 1) else Date(first.y + 1, 1, 1)
  }

  /** The first day of the next month. */
  lemma AddToNextMonth(t: Date)
    requires Valid(t)
    ensures AddDays(t, MonthLength(t.y, t.m) + 1 - t.d) == NextMonth(t)
  {
    AddWithinMonth(t, MonthLength(t.y, t.m) - t.d);
  }

  lemma ModAdd(a: int, n: int)
    ensures (a + n) % 7 == (a % 7 + n) % 7
  {
  }

  lemma WeekdayAfter(t: Date, n: nat)
    requires Valid(t)
    ensures Weekday(AddDays(t, n)) == (Weekday(t) + n) % 7
  {
    AddDaysOrdinal(t, n);
    ModAdd(Ordinal(t) + 6, n);
  }

  /** Waiting for `w` from weekday `x`. */
  function Wait(x: int, w: int): (r: int)
    requires 0 <= x < 7 && 0 <= w < 7
    ensures 0 <= r < 7
  {
    if w >= x then w - x else w - x + 7
  }

  lemma WaitArrives(x: int, w: int, weeks: nat)
    requires 0 <= x < 7 && 0 <= w < 7
    ensures (x + Wait(x, w) + 7 * weeks) % 7 == w
  {
  }

  lemma WaitAfterMonth(x: int, w: int, length: int)
    requires 0 <= x < 7 && 0 <= w < 7 && 28 <= length <= 31 && length <= Wait(x, w) + 28
    ensures Wait((x + length) % 7, w) == Wait(x, w) - (length - 28)
  {
  }

  /** Which occurrence of its weekday in the month a date is: 1 to 5. */
  function NthInMonth(t: Date): (n: int)
    requires Valid(t)
    ensures 1 <= n <= 5
  {
    (t.d - 1) / 7 + 1
  }

  /** Days from `first` to the next weekday `w`. */
  function DaysTo(first: Date, w: int): (r: int)
    requires Valid(first) && 0 <= w < 7
    ensures 0 <= r < 7
  {
    Wait(Weekday(first), w)
  }

  /** The `k`-th weekday `w` of a month that is long enough. */
  lemma MonthHasNth(first: Date, w: int, k: int)
    requires Valid(first) && first.d == 1 && 0 <= w < 7 && 1 <= k <= 5
    requires DaysTo(first, w) + 7 * (k - 1) < MonthLength(first.y, first.m)
    ensures var t := AddDays(first, DaysTo(first, w) + 7 * (k - 1)); Weekday(t) == w && NthInMonth(t) == k
  {
    var offset := DaysTo(first, w) + 7 * (k - 1);
    AddWithinMonth(first, offset);
    WeekdayAfter(first, offset);
    WaitArrives(Weekday(first), w, k - 1);
  }

  /** The length of `months` consecutive months. */
  function LengthOf(first: Date, months: nat): int
    requires Valid(first)
    decreases months
  {
    if months == 0 then 0 else MonthLength(first.y, first.m) + LengthOf(NextMonth(first), months - 1)
  }

  /** Four consecutive months have at least 120 days. */
  lemma FourMonths(first: Date)
    requires Valid(first)
    ensures LengthOf(first, 4) >= 120
  {
    var m2 := NextMonth(first);
    var m3 := NextMonth(m2);
    var m4 := NextMonth(m3);
    assert LengthOf(m4, 1) == MonthLength(m4.y, m4.m);
    assert LengthOf(m3, 2) == MonthLength(m3.y, m3.m) + LengthOf(m4, 1);
    assert LengthOf(m2, 3) == MonthLength(m2.y, m2.m) + LengthOf(m3, 2);
  }

  /** The weekday arithmetic from one month to the next: without a fifth `w`, the wait for `w` shrinks by the days
      the month has beyond 28. */
  lemma WaitShrinks(first: Date, w: int)
    requires Valid(first) && first.d == 1 && 0 <= w < 7
    requires MonthLength(first.y, first.m) <= DaysTo(first, w) + 28
    ensures AddDays(first, MonthLength(first.y, first.m)) == NextMonth(first)
    ensures DaysTo(NextMonth(first), w) == DaysTo(first, w) - (MonthLength(first.y, first.m) - 28)
  {
    AddToNextMonth(first);
    WeekdayAfter(first, MonthLength(first.y, first.m));
    WaitAfterMonth(Weekday(first), w, MonthLength(first.y, first.m));
  }

  /** The fifth `w` of this month, or of one of the `more` months after it, if the wait has to run out by then. */
  lemma {:induction false} FifthWeekday(first: Date, w: int, more: nat) returns (offset: nat)
    requires Valid(first) && first.d == 1 && 0 <= w < 7
    requires LengthOf(first, more + 1) > 28 * (more + 1) + DaysTo(first, w)
    ensures offset < 31 * (more + 1)
    ensures Weekday(AddDays(first, offset)) == w && NthInMonth(AddDays(first, offset)) == 5
    decreases more
  {
    var length := MonthLength(first.y, first.m);
    if length > DaysTo(first, w) + 28 {
      MonthHasNth(first, w, 5);
      offset := DaysTo(first, w) + 28;
    } else {
      WaitShrinks(first, w);
      var rest := FifthWeekday(NextMonth(first), w, more - 1);
      AddDaysAssoc(first, length, rest);
      offset := length + rest;
    }
  }

  /** Every weekday and every ordinal from 1 to 5 comes up again within 155 days of any date. */
  lemma ClassRecurs(t: Date, w: int, k: int) returns (offset: nat)
    requires Valid(t) && 0 <= w < 7 && 1 <= k <= 5
    ensures 1 <= offset <= 155
    ensures Weekday(AddDays(t, offset)) == w && NthInMonth(AddDays(t, offset)) == k
  {
    var toFirst := MonthLength(t.y, t.m) + 1 - t.d;
    var first := NextMonth(t);
    AddToNextMonth(t);
    var inner: nat;
    if k == 5 {
      // Pigeonhole: 120 days are more than four times 28 plus the longest wait.
      FourMonths(first);
      inner := FifthWeekday(first, w, 3);
    } else {
      MonthHasNth(first, w, k);
      inner := DaysTo(first, w) + 7 * (k - 1);
    }
    AddDaysAssoc(t, toFirst, inner);
    offset := toFirst + inner;
  }
}
