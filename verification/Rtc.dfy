// core/src/rtc.c: the calendar clock and its one-second tick.
module Rtc {
  const DAYS_IN_MONTH: seq<int> := [31, 28, 31, 30, 31, 30, 31, 31, 30, 31, 30, 31]

  // rtc_is_leap
  predicate IsLeap(year: int) {
    if year % 400 == 0 then true
    else if year % 100 == 0 then false
    else year % 4 == 0
  }

  // rtc_get_days
  function GetDays(month: int, year: int): (d: int)
    requires 1 <= month <= 12
    ensures 28 <= d <= 31
  {
    if month != 2 then DAYS_IN_MONTH[month - 1] else if IsLeap(year) then 29 else 28
  }

  datatype Date = Date(sec: int, min: int, hour: int, mday: int, mon: int, year: int)

  predicate ValidDate(d: Date) {
    && 0 <= d.sec < 60 && 0 <= d.min < 60 && 0 <= d.hour < 24
    && 1 <= d.mon <= 12 && 1 <= d.mday <= GetDays(d.mon, d.year)
  }

  // ---- the Gregorian calendar as a count of days -----------------------------------------

  // Days from 1 January of the year 1 to 1 January of this one: every fourth year is a leap
  // year, but for the centuries, but for every fourth of those.
  function YearStart(year: int): int {
    365 * (year - 1) + (year - 1) / 4 - (year - 1) / 100 + (year - 1) / 400
  }

  function MonthStart(month: int, year: int): int
    requires 1 <= month <= 13
    decreases month
  {
    if month == 1 then 0 else MonthStart(month - 1, year) + GetDays(month - 1, year)
  }

  function DayNumber(d: Date): int
    requires 1 <= d.mon <= 12
  {
    YearStart(d.year) + MonthStart(d.mon, d.year) + (d.mday - 1)
  }

  function Seconds(d: Date): int
    requires 1 <= d.mon <= 12
  {
    ((DayNumber(d) * 24 + d.hour) * 60 + d.min) * 60 + d.sec
  }

  lemma Div4(y: int, q: int, r: int)
    requires y == 4 * q + r && 0 <= r < 4
    ensures y / 4 == q && y % 4 == r
  {
  }

  lemma Div100(y: int, q: int, r: int)
    requires y == 100 * q + r && 0 <= r < 100
    ensures y / 100 == q && y % 100 == r
  {
  }

  lemma Div400(y: int, q: int, r: int)
    requires y == 400 * q + r && 0 <= r < 400
    ensures y / 400 == q && y % 400 == r
  {
  }

  // The years split into full fours, centuries and fours of centuries.
  lemma YearDigits(year: int) returns (c4: int, c: int, f: int)
    ensures year - 1 == 400 * c4 + 100 * c + f && 0 <= 100 * c + f < 400 && 0 <= f < 100
    ensures (year - 1) / 400 == c4 && (year - 1) / 100 == 4 * c4 + c && (year - 1) / 4 == 100 * c4 + 25 * c + f / 4
    ensures year / 400 == (if c == 3 && f == 99 then c4 + 1 else c4)
    ensures year / 100 == (if f == 99 then 4 * c4 + c + 1 else 4 * c4 + c)
    ensures year / 4 == (if f % 4 == 3 then 100 * c4 + 25 * c + f / 4 + 1 else 100 * c4 + 25 * c + f / 4)
    ensures year % 400 == 0 <==> c == 3 && f == 99
    ensures year % 100 == 0 <==> f == 99
    ensures year % 4 == 0 <==> f % 4 == 3
  {
    c4 := (year - 1) / 400;
    var y := (year - 1) % 400;
    c, f := y / 100, y % 100;
    Div100(year - 1, 4 * c4 + c, f);
    var q, r := f / 4, f % 4;
    Div4(year - 1, 100 * c4 + 25 * c + q, r);
    if r == 3 {
      Div4(year, 100 * c4 + 25 * c + q + 1, 0);
    } else {
      Div4(year, 100 * c4 + 25 * c + q, r + 1);
    }
    if f == 99 {
      Div100(year, 4 * c4 + c + 1, 0);
    } else {
      Div100(year, 4 * c4 + c, f + 1);
    }
    if y == 399 {
      Div400(year, c4 + 1, 0);
    } else {
      Div400(year, c4, y + 1);
    }
  }

  // The rule by remainders is the rule by counting.
  lemma YearLength(year: int)
    ensures YearStart(year + 1) == YearStart(year) + MonthStart(13, year)
    ensures MonthStart(13, year) == if IsLeap(year) then 366 else 365
  {
    var c4, c, f := YearDigits(year);
    Months(year);
  }

  lemma Months(year: int)
    ensures MonthStart(13, year) == if IsLeap(year) then 366 else 365
  {
    hide IsLeap;
    assert MonthStart(4, year) == 62 + GetDays(2, year);
    assert MonthStart(7, year) == MonthStart(4, year) + 91;
    assert MonthStart(10, year) == MonthStart(7, year) + 92;
  }

  // ---- the clock ----------------------------------------------------------------------------

  class Clock {
    var sec: int
    var min: int
    var hour: int
    var mday: int
    var mon: int
    var year: int

    constructor (d: Date)
      ensures Now() == d
    {
      sec, min, hour, mday, mon, year := d.sec, d.min, d.hour, d.mday, d.mon, d.year;
    }

    function Now(): Date
      reads this
    {
      Date(sec, min, hour, mday, mon, year)
    }

    // rtc_recalc
    method Recalc()
      requires 1 <= mon <= 12
      modifies this
      ensures Now() == Carried(old(Now()))
    {
      if sec == 60 {
        sec := 0;
        min := min + 1;
      }
      if min == 60 {
        min := 0;
        hour := hour + 1;
      }
      if hour == 24 {
        hour := 0;
        mday := mday + 1;
      }
      if mday == GetDays(mon, year) + 1 {
        mday := 1;
        mon := mon + 1;
      }
      if mon == 13 {
        mon := 1;
        year := year + 1;
      }
    }

    // rtc_tick: a valid date becomes the valid date one second later.
    method Tick()
      requires ValidDate(Now())
      modifies this
      ensures ValidDate(Now()) && Seconds(Now()) == Seconds(old(Now())) + 1
      ensures Now() == Ticked(old(Now()))
    {
      hide Carried, Seconds, GetDays;
      TickIsOneSecond(Now());
      sec := sec + 1;
      Recalc();
    }

    method Run(n: nat)
      requires ValidDate(Now())
      modifies this
      ensures ValidDate(Now()) && Seconds(Now()) == Seconds(old(Now())) + n
    {
      for i := 0 to n
        invariant ValidDate(Now()) && Seconds(Now()) == Seconds(old(Now())) + i
      {
        Tick();
      }
    }
  }

  function Carried(d: Date): Date
    requires 1 <= d.mon <= 12
  {
    var d1 := if d.sec == 60 then d.(sec := 0, min := d.min + 1) else d;
    var d2 := if d1.min == 60 then d1.(min := 0, hour := d1.hour + 1) else d1;
    var d3 := if d2.hour == 24 then d2.(hour := 0, mday := d2.mday + 1) else d2;
    var d4 := if d3.mday == GetDays(d3.mon, d3.year) + 1 then d3.(mday := 1, mon := d3.mon + 1) else d3;
    if d4.mon == 13 then d4.(mon := 1, year := d4.year + 1) else d4
  }

  function Ticked(d: Date): Date
    requires 1 <= d.mon <= 12
  {
    Carried(d.(sec := d.sec + 1))
  }

  // The day after the last of a month is the first of the next.
  lemma NextDay(d: Date)
    requires 1 <= d.mon <= 12 && 1 <= d.mday <= GetDays(d.mon, d.year) + 1
    ensures var d4 := if d.mday == GetDays(d.mon, d.year) + 1 then d.(mday := 1, mon := d.mon + 1) else d;
      var d5 := if d4.mon == 13 then d4.(mon := 1, year := d4.year + 1) else d4;
      1 <= d5.mon <= 12 && 1 <= d5.mday <= GetDays(d5.mon, d5.year) && DayNumber(d5) == DayNumber(d)
  {
    hide IsLeap, YearStart;
    YearLength(d.year);
  }

  lemma TickIsOneSecond(d: Date)
    requires ValidDate(d)
    ensures ValidDate(Ticked(d)) && Seconds(Ticked(d)) == Seconds(d) + 1
  {
    hide DayNumber, GetDays;
    var d0 := d.(sec := d.sec + 1);
    var d1 := if d0.sec == 60 then d0.(sec := 0, min := d0.min + 1) else d0;
    var d2 := if d1.min == 60 then d1.(min := 0, hour := d1.hour + 1) else d1;
    var d3 := if d2.hour == 24 then d2.(hour := 0, mday := d2.mday + 1) else d2;
    DayLater(d, d3);
    NextDay(d3);
  }

  lemma DayLater(d: Date, e: Date)
    requires 1 <= d.mon <= 12 && e.mon == d.mon && e.year == d.year
    ensures DayNumber(e) - DayNumber(d) == e.mday - d.mday
  {
  }

  // ---- a date has its own second -------------------------------------------------------------

  lemma {:induction false} YearsAscend(a: int, b: int)
    requires a <= b
    ensures YearStart(b) - YearStart(a) >= 365 * (b - a)
    decreases b - a
  {
    hide YearStart, MonthStart, IsLeap;
    if a < b {
      YearsAscend(a, b - 1);
      YearLength(b - 1);
    }
  }

  lemma {:induction false} MonthsAscend(a: int, b: int, year: int)
    requires 1 <= a < b <= 13
    ensures MonthStart(a, year) + GetDays(a, year) <= MonthStart(b, year)
    ensures MonthStart(a, year) >= 0
    decreases b
  {
    if b > a + 1 {
      MonthsAscend(a, b - 1, year);
    } else if a > 1 {
      MonthsAscend(a - 1, a, year);
    }
  }

  // Within a year a day lies before the next year starts.
  lemma DayInYear(d: Date)
    requires ValidDate(d)
    ensures YearStart(d.year) <= DayNumber(d) < YearStart(d.year + 1)
  {
    YearLength(d.year);
    MonthsAscend(d.mon, 13, d.year);
  }

  lemma DayUnique(d: Date, e: Date)
    requires ValidDate(d) && ValidDate(e) && DayNumber(d) == DayNumber(e)
    ensures d.year == e.year && d.mon == e.mon && d.mday == e.mday
  {
    hide YearStart, MonthStart, IsLeap, GetDays;
    DayInYear(d);
    DayInYear(e);
    if d.year < e.year {
      YearsAscend(d.year + 1, e.year);
      assert false;
    } else if e.year < d.year {
      YearsAscend(e.year + 1, d.year);
      assert false;
    } else if d.mon < e.mon {
      MonthsAscend(d.mon, e.mon, d.year);
      assert false;
    } else if e.mon < d.mon {
      MonthsAscend(e.mon, d.mon, d.year);
      assert false;
    }
  }

  // So the date a tick gives is the only valid one a second later.
  lemma TickIsTheOnly(d: Date, e: Date)
    requires ValidDate(d) && ValidDate(e)
    ensures e == Ticked(d) <==> Seconds(e) == Seconds(d) + 1
  {
    TickIsOneSecond(d);
    if Seconds(e) == Seconds(d) + 1 {
      SecondUnique(e, Ticked(d));
    }
  }

  lemma SecondUnique(d: Date, e: Date)
    requires ValidDate(d) && ValidDate(e) && Seconds(d) == Seconds(e)
    ensures d == e
  {
    hide DayNumber, GetDays;
    DayUnique(d, e);
  }
}
