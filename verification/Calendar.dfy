/** The calendar of scanner phones. */
module Calendar {
  // In India time, on the server and again in the browser.  An instant is a count of microseconds, with day 1 (1 January of
  // year 1) starting at one day's length.

  import opened Options

  datatype Date = Date(year: int, month: int, day: int)

  const DAY := 86_400_000_000
  const IST := 19_800_000_000  // 5 h 30 min
  const MAX_ACTIVE_MONTHS := 6
  const LAST_YEAR := 9999

  // ---- The Gregorian calendar ----

  predicate Leap(year: int) { year % 4 == 0 && (year % 100 != 0 || year % 400 == 0) }

  function MonthLength(year: int, month: int): (n: int)
    ensures 28 <= n <= 31
  {
    if month == 2 then (if Leap(year) then 29 else 28) else if month in {4, 6, 9, 11} then 30 else 31
  }

  function YearLength(year: int): int { if Leap(year) then 366 else 365 }

  /** A date Python's `date` accepts. */
  predicate Valid(d: Date) {
    1 <= d.year <= LAST_YEAR && 1 <= d.month <= 12 && 1 <= d.day <= MonthLength(d.year, d.month)
  }

  predicate Earlier(d: Date, e: Date) {
    d.year < e.year || (d.year == e.year && (d.month < e.month || (d.month == e.month && d.day < e.day)))
  }

  /** Days in the years before, by the rule of leap years. */
  function DaysBeforeYear(year: int): int {
    365 * (year - 1) + (year - 1) / 4 - (year - 1) / 100 + (year - 1) / 400
  }

  /** The formula adds up the years. */
  lemma NextYear(year: int)
    ensures DaysBeforeYear(year + 1) == DaysBeforeYear(year) + YearLength(year)
  {
    assert year / 4 == (year - 1) / 4 + if year % 4 == 0 then 1 else 0;
    assert year / 100 == (year - 1) / 100 + if year % 100 == 0 then 1 else 0;
    assert year / 400 == (year - 1) / 400 + if year % 400 == 0 then 1 else 0;
    assert year % 400 == 0 ==> year % 100 == 0 && year % 4 == 0;
  }

  function DaysBeforeMonth(year: int, month: int): int
    requires 1 <= month <= 13
    decreases month
  {
    if month == 1 then 0 else DaysBeforeMonth(year, month - 1) + MonthLength(year, month - 1)
  }

  /** The number of the day, counting 1 January of year 1 as 1. */
  function Ordinal(d: Date): int
    requires d.year >= 1 && 1 <= d.month <= 12
  {
    DaysBeforeYear(d.year) + DaysBeforeMonth(d.year, d.month) + d.day
  }

  lemma {:induction false} YearsBounds(year: int, later: int)
    requires 1 <= year <= later
    ensures DaysBeforeYear(later) >= DaysBeforeYear(year) >= 0
    ensures year < later ==> DaysBeforeYear(later) >= DaysBeforeYear(year) + YearLength(year)
    decreases later
  {
    hide DaysBeforeYear;
    if year < later {
      YearsBounds(year, later - 1);
      NextYear(later - 1);
    } else if year > 1 {
      YearsBounds(year - 1, later - 1);
      NextYear(year - 1);
    } else {
      NoYears();
    }
  }

  lemma NoYears()
    ensures DaysBeforeYear(1) == 0
  {
  }

  lemma {:induction false} MonthsBounds(year: int, month: int, later: int)
    requires 1 <= month <= later <= 13
    ensures DaysBeforeMonth(year, later) >= DaysBeforeMonth(year, month) >= 0
    ensures month < later ==> DaysBeforeMonth(year, later) >= DaysBeforeMonth(year, month) + MonthLength(year, month)
    decreases later
  {
    if month < later { MonthsBounds(year, month, later - 1); }
    else if month > 1 { MonthsBounds(year, month - 1, later - 1); }
  }

  /** A year is as long as its twelve months. */
  lemma MonthsFillTheYear(year: int)
    ensures DaysBeforeMonth(year, 13) == YearLength(year)
  {
    assert DaysBeforeMonth(year, 5) == if Leap(year) then 121 else 120;
    assert DaysBeforeMonth(year, 9) == DaysBeforeMonth(year, 5) + 123;
  }

  /** Days are numbered in order, without repetition. */
  lemma EarlierIsSmaller(d: Date, e: Date)
    requires Valid(d) && Valid(e)
    ensures Earlier(d, e) <==> Ordinal(d) < Ordinal(e)
    ensures Ordinal(d) == Ordinal(e) ==> d == e
  {
    if Earlier(d, e) { EarlierGap(d, e); }
    if Earlier(e, d) { EarlierGap(e, d); }
  }

  lemma EarlierGap(d: Date, e: Date)
    requires Valid(d) && Valid(e) && Earlier(d, e)
    ensures Ordinal(d) < Ordinal(e)
  {
    if d.year < e.year {
      YearsBounds(d.year, e.year);
      MonthsBounds(d.year, d.month, 13);
      MonthsFillTheYear(d.year);
      MonthsBounds(e.year, 1, e.month);
    } else if d.month < e.month {
      MonthsBounds(d.year, d.month, e.month);
    }
  }

  /** The last day number there is. */
  function LastOrdinal(): int { Ordinal(Date(LAST_YEAR, 12, 31)) }

  lemma {:induction false} DateExists(n: int, year: int)
    requires 1 <= year <= LAST_YEAR && DaysBeforeYear(year) < n <= LastOrdinal()
    ensures exists d: Date :: Valid(d) && Ordinal(d) == n
    decreases LAST_YEAR - year
  {
    hide DaysBeforeYear;
    MonthsFillTheYear(year);
    if n <= DaysBeforeYear(year) + YearLength(year) {
      MonthExists(n, year, 1);
    } else {
      LastYearEnds();
      NextYear(year);
      DateExists(n, year + 1);
    }
  }

  lemma LastYearEnds()
    ensures LastOrdinal() == DaysBeforeYear(LAST_YEAR) + YearLength(LAST_YEAR)
  {
    hide DaysBeforeYear;
    MonthsFillTheYear(LAST_YEAR);
    assert DaysBeforeMonth(LAST_YEAR, 13) == DaysBeforeMonth(LAST_YEAR, 12) + 31;
  }

  lemma {:induction false} MonthExists(n: int, year: int, month: int)
    requires 1 <= year <= LAST_YEAR && 1 <= month <= 12
    requires DaysBeforeYear(year) + DaysBeforeMonth(year, month) < n <= DaysBeforeYear(year) + DaysBeforeMonth(year, 13)
    ensures exists d: Date :: Valid(d) && Ordinal(d) == n
    decreases 12 - month
  {
    hide DaysBeforeYear;
    var day := n - DaysBeforeYear(year) - DaysBeforeMonth(year, month);
    if day <= MonthLength(year, month) {
      assert Valid(Date(year, month, day)) && Ordinal(Date(year, month, day)) == n;
    } else {
      assert DaysBeforeMonth(year, month + 1) == DaysBeforeMonth(year, month) + MonthLength(year, month);
      MonthExists(n, year, month + 1);
    }
  }

  /** The date of a day number; there is exactly one (`EarlierIsSmaller`). */
  ghost function DateOf(n: int): (d: Date)
    requires 1 <= n <= LastOrdinal()
    ensures Valid(d) && Ordinal(d) == n
  {
    NoYears();
    DateExists(n, 1);
    var d: Date :| Valid(d) && Ordinal(d) == n;
    d
  }

  // ---- India time ----

  /** `ist_today`; `None` beyond the dates there are. */
  ghost function IstToday(now: int): Option<Date> {
    var n := (now + IST) / DAY;
    if 1 <= n <= LastOrdinal() then Some(DateOf(n)) else None
  }

  /** `end_of_ist_day`: midnight in India after day `d`, in UTC; `None` on the last day there is. */
  function EndOfIstDay(d: Date): Option<int>
    requires Valid(d)
  {
    if Ordinal(d) + 1 > LastOrdinal() then None else Some((Ordinal(d) + 1) * DAY - IST)
  }

  /** `ist_day_of`, of a stored instant */
  ghost function IstDayOf(activeUntil: int): Option<Date> { IstToday(activeUntil - 1) }

  lemma OrdinalRange(d: Date)
    requires Valid(d)
    ensures 1 <= Ordinal(d) <= LastOrdinal()
  {
    YearsBounds(1, d.year);
    MonthsBounds(d.year, 1, d.month);
    EarlierIsSmaller(d, Date(LAST_YEAR, 12, 31));
  }

  lemma Midnights(t: int, n: int)
    ensures (t + IST) / DAY == n <==> n * DAY - IST <= t < (n + 1) * DAY - IST
    ensures (t + IST) / DAY <= n <==> t < (n + 1) * DAY - IST
  {
  }

  /** The stored instant is the end of the day it was made from, to the microsecond: an instant is before it exactly if
      in India it is that day or earlier; and the day is read back from it. */
  lemma EndOfDayRoundTrip(d: Date, now: int)
    requires Valid(d) && EndOfIstDay(d).Some?
    ensures var end := EndOfIstDay(d).value;
            && IstDayOf(end) == Some(d)
            && (IstToday(now) == Some(d) <==> end - DAY <= now < end)
            && (IstToday(now).Some? ==> (now < end <==> !Earlier(d, IstToday(now).value)))
  {
    hide Ordinal, DateOf, LastOrdinal, Earlier;
    var n, end := Ordinal(d), EndOfIstDay(d).value;
    OrdinalRange(d);
    Midnights(end - 1, n);
    Midnights(now, n);
    EarlierIsSmaller(d, DateOf(n));
    var today := IstToday(now);
    if today.Some? { EarlierIsSmaller(d, today.value); }
  }

  // ---- Adding months ----

  /** `add_months`; `None` stands for the error of a year out of range.  Both operations of `divmod` by 12 round down.
      */
  function AddMonths(d: Date, months: int): Option<Date> {
    var total := d.month - 1 + months;
    var year, month := d.year + total / 12, total % 12 + 1;
    if 1 <= year <= LAST_YEAR
    then Some(Date(year, month, if d.day < MonthLength(year, month) then d.day else MonthLength(year, month)))
    else None
  }

  /** Months counted from year 0. */
  function MonthIndex(d: Date): int { 12 * d.year + d.month }

  /** The result is a valid date exactly that many calendar months on, on the same day or else on the last day of a
      shorter month. */
  lemma AddMonthsExact(d: Date, months: int)
    requires Valid(d)
    ensures var e := AddMonths(d, months);
            && (e.Some? <==> 13 <= MonthIndex(d) + months <= 12 * LAST_YEAR + 12)
            && (e.Some? ==>
                  && Valid(e.value) && MonthIndex(e.value) == MonthIndex(d) + months
                  && (e.value.day == d.day || (e.value.day < d.day && e.value.day == MonthLength(e.value.year, e.value.month))))
  {
  }

  /** A later day never gives an earlier result. */
  lemma AddMonthsMonotone(d: Date, e: Date, months: int)
    requires Valid(d) && Valid(e) && !Earlier(e, d)
    requires AddMonths(d, months).Some? && AddMonths(e, months).Some?
    ensures !Earlier(AddMonths(e, months).value, AddMonths(d, months).value)
  {
    AddMonthsExact(d, months);
    AddMonthsExact(e, months);
    var a, b := AddMonths(d, months).value, AddMonths(e, months).value;
    assert MonthIndex(a) <= MonthIndex(b);
    if MonthIndex(a) == MonthIndex(b) { assert a.year == b.year && a.month == b.month && d.day <= e.day; }
  }

  /** Going back the same number of months returns to the start exactly if the day exists in both months, and otherwise
      to an earlier day of the same month. */
  lemma AddMonthsBack(d: Date, months: int)
    requires Valid(d) && AddMonths(d, months).Some?
    ensures var e := AddMonths(d, months).value;
            && AddMonths(e, -months).Some?
            && var back := AddMonths(e, -months).value;
               && back.year == d.year && back.month == d.month && back.day <= d.day
               && (back == d <==> d.day <= MonthLength(e.year, e.month))
  {
    AddMonthsExact(d, months);
    var e := AddMonths(d, months).value;
    AddMonthsExact(e, -months);
    var back := AddMonths(e, -months).value;
    assert MonthIndex(back) == MonthIndex(d);
    assert back.year == d.year && back.month == d.month;
  }

  // ---- Active until ----

  datatype ActiveUntil = Until(instant: int) | ACTIVE_UNTIL_OUT_OF_RANGE | Raised

  /** `active_until_for` */
  ghost function ActiveUntilFor(day: Date, now: int): ActiveUntil
    requires Valid(day)
  {
    var today := IstToday(now);
    if today.None? then Raised
    else if Earlier(day, today.value) then ACTIVE_UNTIL_OUT_OF_RANGE
    else
      var latest := AddMonths(today.value, MAX_ACTIVE_MONTHS);
      if latest.None? then Raised
      else if Earlier(latest.value, day) then ACTIVE_UNTIL_OUT_OF_RANGE
      else if EndOfIstDay(day).None? then Raised
      else Until(EndOfIstDay(day).value)
  }

  /** Six consecutive months are at most 184 days long. */
  lemma SixMonths(d: Date)
    requires Valid(d) && AddMonths(d, MAX_ACTIVE_MONTHS).Some?
    ensures Ordinal(AddMonths(d, MAX_ACTIVE_MONTHS).value) - Ordinal(d) <= 184
  {
    hide DaysBeforeYear, DaysBeforeMonth;
    var e := AddMonths(d, MAX_ACTIVE_MONTHS).value;
    assert e.day <= d.day;
    SixMonthsLong(d.year, d.month);
  }

  /** From the start of a month to the start of the sixth month after it. */
  lemma SixMonthsLong(year: int, month: int)
    requires year >= 1 && 1 <= month <= 12
    ensures var total := month - 1 + 6;
            DaysBeforeYear(year + total / 12) + DaysBeforeMonth(year + total / 12, total % 12 + 1)
            - DaysBeforeYear(year) - DaysBeforeMonth(year, month) <= 184
  {
    hide DaysBeforeYear, DaysBeforeMonth;
    MonthTable(year);
    MonthTable(year + 1);
    NextYear(year);
  }

  /** The days before each month of a year. */
  lemma MonthTable(year: int)
    ensures var leap := if Leap(year) then 1 else 0;
            && DaysBeforeMonth(year, 1) == 0 && DaysBeforeMonth(year, 2) == 31
            && DaysBeforeMonth(year, 3) == 59 + leap && DaysBeforeMonth(year, 4) == 90 + leap
            && DaysBeforeMonth(year, 5) == 120 + leap && DaysBeforeMonth(year, 6) == 151 + leap
            && DaysBeforeMonth(year, 7) == 181 + leap && DaysBeforeMonth(year, 8) == 212 + leap
            && DaysBeforeMonth(year, 9) == 243 + leap && DaysBeforeMonth(year, 10) == 273 + leap
            && DaysBeforeMonth(year, 11) == 304 + leap && DaysBeforeMonth(year, 12) == 334 + leap
  {
    assert DaysBeforeMonth(year, 3) == DaysBeforeMonth(year, 2) + MonthLength(year, 2);
    assert DaysBeforeMonth(year, 5) == DaysBeforeMonth(year, 4) + 30;
    assert DaysBeforeMonth(year, 7) == DaysBeforeMonth(year, 6) + 30;
    assert DaysBeforeMonth(year, 9) == DaysBeforeMonth(year, 8) + 31;
    assert DaysBeforeMonth(year, 11) == DaysBeforeMonth(year, 10) + 31;
  }

  lemma LastDayHasNoEnd(day: Date)
    requires Valid(day)
    ensures EndOfIstDay(day).None? <==> day == Date(LAST_YEAR, 12, 31)
  {
    hide Ordinal;
    OrdinalRange(day);
    EarlierIsSmaller(day, Date(LAST_YEAR, 12, 31));
  }

  /** A day is accepted exactly from today to six months on, and what is stored for it is after `now`, at most 185 days
      later, and read back as that day.  It is out of range if it is earlier or later than these.  Only where the dates
      there are come to an end an error is raised: if today or six months on is no date, or the day has no next. */
  lemma AcceptedIsSoon(day: Date, now: int)
    requires Valid(day)
    ensures var result, today := ActiveUntilFor(day, now), IstToday(now);
            && (result.Until? ==>
                  && now < result.instant <= now + 185 * DAY
                  && IstDayOf(result.instant) == Some(day)
                  && today.Some? && !Earlier(day, today.value))
            && (today.Some? && AddMonths(today.value, 6).Some? && EndOfIstDay(day).Some? ==>
                  (result.Until? <==> !Earlier(day, today.value) && !Earlier(AddMonths(today.value, 6).value, day)))
            && (result == ACTIVE_UNTIL_OUT_OF_RANGE
                <==> today.Some? && (Earlier(day, today.value)
                                     || (AddMonths(today.value, 6).Some? && Earlier(AddMonths(today.value, 6).value, day))))
            && (today.Some? && AddMonths(today.value, 6).Some? && day != Date(LAST_YEAR, 12, 31) ==> !result.Raised?)
  {
    LastDayHasNoEnd(day);
    var result, today := ActiveUntilFor(day, now), IstToday(now);
    if result.Until? {
      EndOfDayRoundTrip(day, now);
      AddMonthsExact(today.value, 6);
      var latest := AddMonths(today.value, 6).value;
      SixMonths(today.value);
      EarlierIsSmaller(latest, day);
      Midnights(now, Ordinal(today.value));
      assert Ordinal(day) <= Ordinal(today.value) + 184;
    }
  }

  // ---- The browser ----

  /** The remainder operator of JavaScript takes the sign of its left operand. */
  function JsRemainder(a: int, b: int): int
    requires b > 0
  {
    if a >= 0 then a % b else -((-a) % b)
  }

  /** new Date(Date.UTC(year, month + 1, 0)).getUTCDate(): years 0 to 99 stand for 1900 to 1999. */
  function JsLastDay(year: int, month: int): int { MonthLength(if 0 <= year <= 99 then 1900 + year else year, month) }

  /** `addMonths` of the browser */
  function JsAddMonths(d: Date, months: int): Date {
    var total := d.month - 1 + months;
    var year, month := d.year + total / 12, JsRemainder(JsRemainder(total, 12) + 12, 12) + 1;
    var last := JsLastDay(year, month);
    Date(year, month, if d.day < last then d.day else last)
  }

  lemma JsRemainderWraps(total: int)
    ensures JsRemainder(JsRemainder(total, 12) + 12, 12) == total % 12
  {
  }

  /** The browser agrees with the server wherever the server has an answer, its two-digit years notwithstanding. */
  lemma BrowserAgrees(d: Date, months: int)
    requires Valid(d) && AddMonths(d, months).Some?
    ensures JsAddMonths(d, months) == AddMonths(d, months).value
  {
    JsRemainderWraps(d.month - 1 + months);
  }

  /** `istDate` of the browser: the UTC date of the instant moved by the offset; the clock counts whole milliseconds. */
  ghost function JsIstDate(now: int): Option<Date> {
    var moved := now / 1000 * 1000 + 330 * 60 * 1_000_000;
    if 1 <= moved / DAY <= LastOrdinal() then Some(DateOf(moved / DAY)) else None
  }

  /** Midnight in India falls on a whole millisecond. */
  lemma WholeMilliseconds(now: int)
    ensures (now / 1000 * 1000 + IST) / DAY == (now + IST) / DAY
  {
    var n := (now + IST) / DAY;
    Midnights(now, n);
    assert now / 1000 * 1000 <= now < now / 1000 * 1000 + 1000;
    assert n * DAY - IST == 1000 * (n * 86_400_000 - 19_800_000);
    assert now / 1000 >= n * 86_400_000 - 19_800_000;
    Midnights(now / 1000 * 1000, n);
  }

  /** So both offer the same range of days at the same moment. */
  lemma BrowserOffersTheSameDays(now: int)
    ensures JsIstDate(now) == IstToday(now)
    ensures IstToday(now).Some? && AddMonths(IstToday(now).value, 6).Some? ==>
              JsAddMonths(JsIstDate(now).value, 6) == AddMonths(IstToday(now).value, 6).value
  {
    hide AddMonths, JsAddMonths, DateOf, LastOrdinal;
    WholeMilliseconds(now);
    if IstToday(now).Some? && AddMonths(IstToday(now).value, 6).Some? { BrowserAgrees(IstToday(now).value, 6); }
  }
}
