/**
 * The proleptic Gregorian calendar of JavaScript's `Date`, on integer milliseconds from the epoch.
 * Local time is taken to be UTC: the model has no time zone.
 */
module Calendar {

  /** The day number (days since 1 January 1970) of day `d` of month `m` (1 to 12) of year `y`. */
  function DaysFromCivil(y: int, m: int, d: int): int
    requires 1 <= m <= 12
  {
    var yy := if m <= 2 then y - 1 else y;
    var era := yy / 400;
    var yoe := yy - era * 400;
    var mp := (m + 9) % 12;
    var doy := (153 * mp + 2) / 5 + d - 1;
    var doe := yoe * 365 + yoe / 4 - yoe / 100 + doy;
    era * 146097 + doe - 719468
  }

  /** MakeDay: a month outside 0 to 11 carries into the year, and the date counts days from the
      first of the month, so date 0 is the last day of the month before. */
  function MakeDay(year: int, month: int, date: int): int
  {
    DaysFromCivil(year + month / 12, month % 12 + 1, 1) + date - 1
  }

  function MakeTime(hour: int, minute: int, second: int): int
  {
    hour * 3600000 + minute * 60000 + second * 1000
  }

  /** The year `new Date(y, ...)` uses: 0 to 99 mean 1900 to 1999. */
  function FullYear(y: int): int
  {
    if 0 <= y <= 99 then 1900 + y else y
  }

  /** `new Date(year, month, date, hour, minute, second)`, in ms, where `time` is
      MakeTime(hour, minute, second); `month` counts from 0. */
  function LocalTime(year: int, month: int, date: int, time: int): int
  {
    MakeDay(FullYear(year), month, date) * 86400000 + time
  }

  /** `new Date(year, month, date)`: the start of that day. */
  function Midnight(year: int, month: int, date: int): int
  {
    LocalTime(year, month, date, 0)
  }

  /** The day a time value falls on (a day has 86400000 ms); two times share their date, month and year exactly when they
      share this number. */
  function DayNumber(t: int): int
  {
    t / 86400000
  }

  /** Day 0 is 1 January 1970. */
  lemma EpochIsDayZero()
    ensures DaysFromCivil(1970, 1, 1) == 0
    ensures MakeDay(1970, 0, 1) == 0
  {
    CivilEpoch();
    assert 1970 + 0 / 12 == 1970 && 0 % 12 + 1 == 1;
  }

  lemma CivilEpoch()
    ensures DaysFromCivil(1970, 1, 1) == 0
  {
    var era := 1969 / 400;
    assert era == 4;
    var yoe := 1969 - era * 400;
    assert yoe == 369;
    assert (153 * ((1 + 9) % 12) + 2) / 5 == 306;
    assert yoe / 4 == 92 && yoe / 100 == 3;
  }

  /** Thirty days hath September, April, June and November; the other months up to November have
      thirty-one, except February, whose length depends on the year and is not stated here. */
  lemma MonthLengths(y: int, m: int)
    requires 1 <= m <= 11 && m != 2
    ensures DaysFromCivil(y, m + 1, 1) - DaysFromCivil(y, m, 1)
         == if m == 4 || m == 6 || m == 9 || m == 11 then 30 else 31
  {
    MonthShift(y, m);
    var mp := (m + 9) % 12;
    assert (m + 10) % 12 == mp + 1;
    assert 0 <= mp <= 10 && mp != 11;
  }

  /** December has thirty-one days too. */
  lemma DecemberLength(y: int)
    ensures DaysFromCivil(y + 1, 1, 1) - DaysFromCivil(y, 12, 1) == 31
  {
    assert (153 * ((12 + 9) % 12) + 2) / 5 == 275;
    assert (153 * ((1 + 9) % 12) + 2) / 5 == 306;
  }

  /** From the first of one month to the first of the next, within the same March-based year,
      only the day-of-year offset changes. */
  lemma MonthShift(y: int, m: int)
    requires 1 <= m <= 11 && m != 2
    ensures DaysFromCivil(y, m + 1, 1) - DaysFromCivil(y, m, 1)
         == (153 * ((m + 10) % 12) + 2) / 5 - (153 * ((m + 9) % 12) + 2) / 5
  {
  }

  /** Twelve months more is one year more, and one date more is one day more. */
  lemma MakeDayCarries(year: int, month: int, date: int)
    ensures MakeDay(year, month + 12, date) == MakeDay(year + 1, month, date)
    ensures MakeDay(year, month, date + 1) == MakeDay(year, month, date) + 1
  {
    assert (month + 12) / 12 == month / 12 + 1;
    assert (month + 12) % 12 == month % 12;
  }

  /** A time within a day's 24 hours falls on that day; later hours carry into the next days. */
  lemma DayOfLocalTime(year: int, month: int, date: int, time: int)
    requires 0 <= time
    ensures DayNumber(LocalTime(year, month, date, time)) == MakeDay(FullYear(year), month, date) + time / 86400000
    ensures LocalTime(year, month, date, time) % 86400000 == time % 86400000
  {
    var day := MakeDay(FullYear(year), month, date);
    var q := time / 86400000;
    assert day * 86400000 + time == (day + q) * 86400000 + time % 86400000;
  }

  /** Midnight falls on the day it names, at its very start. */
  lemma MidnightDay(year: int, month: int, date: int)
    ensures DayNumber(Midnight(year, month, date)) == MakeDay(FullYear(year), month, date)
    ensures Midnight(year, month, date) % 86400000 == 0
  {
    DayOfLocalTime(year, month, date, 0);
  }
}
