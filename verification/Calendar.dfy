/**
  UTC broken-down time. `Timegm` is the formula of section 4.16 (Seconds Since the Epoch) of
  POSIX.1-2017 Base Definitions; `Gmtime` is its inverse, built by search.
 */
module Calendar {

  /** `struct tm`: `year` counts from 1900 and `mon` from 0. */
  datatype Tm = Tm(year: int, mon: int, mday: int, hour: int, min: int, sec: int)

  const SECONDS_PER_DAY := 86400

  /** First second of the year 10000. */
  const END_OF_9999 := 253402300800

  predicate IsLeap(year: int) {
    var y := year + 1900;
    y % 4 == 0 && (y % 100 != 0 || y % 400 == 0)
  }

  function DaysInYear(year: int): int {
    if IsLeap(year) then 366 else 365
  }

  /** Days from the epoch to 1 January of the year, in the terms of the POSIX formula. */
  function DaysBeforeYear(year: int): int {
    (year - 70) * 365 + (year - 69) / 4 - (year - 1) / 100 + (year + 299) / 400
  }

  /** Days from 1 January to the first of the month; month 12 stands for the year's end. */
  function DaysBeforeMonth(leap: bool, mon: int): int
    requires 0 <= mon <= 12
  {
    [0, 31, 59, 90, 120, 151, 181, 212, 243, 273, 304, 334, 365][mon] + (if leap && mon >= 2 then 1 else 0)
  }

  function DaysInMonth(leap: bool, mon: int): int
    requires 0 <= mon < 12
  {
    DaysBeforeMonth(leap, mon + 1) - DaysBeforeMonth(leap, mon)
  }

  function YearDay(tm: Tm): int
    requires 0 <= tm.mon < 12
  {
    DaysBeforeMonth(IsLeap(tm.year), tm.mon) + tm.mday - 1
  }

  predicate Valid(tm: Tm) {
    && tm.year >= 70
    && 0 <= tm.mon < 12
    && 1 <= tm.mday <= DaysInMonth(IsLeap(tm.year), tm.mon)
    && 0 <= tm.hour < 24
    && 0 <= tm.min < 60
    && 0 <= tm.sec < 60
  }

  function Timegm(tm: Tm): int
    requires 0 <= tm.mon < 12
  {
    tm.sec + tm.min * 60 + tm.hour * 3600 + (DaysBeforeYear(tm.year) + YearDay(tm)) * SECONDS_PER_DAY
  }

  function OneIfDivides(d: int, n: int): int
    requires d > 0
  {
    if n % d == 0 then 1 else 0
  }

  /** A quotient grows by one exactly at the multiples of the divisor. */
  lemma QuotientStep(n: int, d: int)
    requires d == 4 || d == 100 || d == 400
    ensures (n + 1) / d == n / d + OneIfDivides(d, n + 1)
  {
  }

  lemma YearStep(year: int)
    ensures DaysBeforeYear(year + 1) == DaysBeforeYear(year) + DaysInYear(year)
  {
    hide IsLeap, OneIfDivides;
    QuotientStep(year - 69, 4);
    QuotientStep(year - 1, 100);
    QuotientStep(year + 299, 400);
    LeapDays(year);
  }

  lemma LeapDays(year: int)
    ensures OneIfDivides(4, year - 68) - OneIfDivides(100, year) + OneIfDivides(400, year + 300)
            == if IsLeap(year) then 1 else 0
  {
    hide IsLeap;
    LeapByResidues(year);
    HundredsAreFours(year);
    FourHundredsAreHundreds(year);
  }

  lemma HundredsAreFours(year: int)
    ensures year % 100 == 0 ==> (year - 68) % 4 == 0
  {
    if year % 100 == 0 {
      assert year - 68 == 4 * (25 * (year / 100) - 17);
    }
  }

  lemma FourHundredsAreHundreds(year: int)
    ensures (year + 300) % 400 == 0 ==> year % 100 == 0
  {
    if (year + 300) % 400 == 0 {
      assert year == 100 * (4 * ((year + 300) / 400) - 3);
    }
  }

  lemma LeapByResidues(year: int)
    ensures IsLeap(year) <==> (year - 68) % 4 == 0 && (year % 100 != 0 || (year + 300) % 400 == 0)
  {
    ShiftBy1968(year - 68);
    ShiftBy1900(year);
    ShiftBy1600(year + 300);
  }

  lemma ShiftBy1968(n: int)
    ensures (n + 1968) % 4 == n % 4
  {
    assert n + 1968 == 4 * (n / 4 + 492) + n % 4;
  }

  lemma ShiftBy1900(n: int)
    ensures (n + 1900) % 100 == n % 100
  {
    assert n + 1900 == 100 * (n / 100 + 19) + n % 100;
  }

  lemma ShiftBy1600(n: int)
    ensures (n + 1600) % 400 == n % 400
  {
    assert n + 1600 == 400 * (n / 400 + 4) + n % 400;
  }

  lemma {:induction false} YearsApart(year: int, later: int)
    requires year < later
    ensures DaysBeforeYear(year) + DaysInYear(year) <= DaysBeforeYear(later)
    decreases later - year
  {
    YearStep(year);
    if year + 1 < later {
      YearsApart(year + 1, later);
    }
  }

  /** The year that the given day, counted from the epoch, falls in; `year` is not past it. */
  function FindYear(day: int, year: int): (r: int)
    requires DaysBeforeYear(year) <= day
    ensures r >= year && DaysBeforeYear(r) <= day < DaysBeforeYear(r) + DaysInYear(r)
    decreases day - DaysBeforeYear(year)
  {
    YearStep(year);
    if day < DaysBeforeYear(year) + DaysInYear(year) then year else FindYear(day, year + 1)
  }

  /** The month that the given day of the year falls in. */
  function FindMonth(leap: bool, yday: int, mon: int): (r: int)
    requires 0 <= mon < 12 && DaysBeforeMonth(leap, mon) <= yday < DaysBeforeMonth(leap, 12)
    ensures mon <= r < 12 && DaysBeforeMonth(leap, r) <= yday < DaysBeforeMonth(leap, r + 1)
    decreases 12 - mon
  {
    if yday < DaysBeforeMonth(leap, mon + 1) then mon else FindMonth(leap, yday, mon + 1)
  }

  /** `gmtime_r` from the epoch on. */
  function Gmtime(t: nat): Tm {
    var day := t / SECONDS_PER_DAY;
    var rest := t % SECONDS_PER_DAY;
    var year := FindYear(day, 70);
    var yday := day - DaysBeforeYear(year);
    var mon := FindMonth(IsLeap(year), yday, 0);
    Tm(year, mon, yday - DaysBeforeMonth(IsLeap(year), mon) + 1, rest / 3600, rest / 60 % 60, rest % 60)
  }

  /** The broken-down time is a real date and the POSIX formula takes it back to the instant. */
  lemma GmtimeThenTimegm(t: nat)
    ensures Valid(Gmtime(t)) && Timegm(Gmtime(t)) == t
    ensures Gmtime(t).sec == t % 60
  {
    var rest := t % SECONDS_PER_DAY;
    assert rest / 60 == rest / 3600 * 60 + rest / 60 % 60;
    assert rest == rest / 60 * 60 + rest % 60;
    assert t == 60 * (1440 * (t / SECONDS_PER_DAY) + rest / 60) + rest % 60;
  }

  /** Field-by-field order, most significant first. */
  predicate Earlier(a: Tm, b: Tm) {
    || a.year < b.year
    || (a.year == b.year && (
          || a.mon < b.mon
          || (a.mon == b.mon && (
                || a.mday < b.mday
                || (a.mday == b.mday && (
                      || a.hour < b.hour
                      || (a.hour == b.hour && (
                            || a.min < b.min
                            || (a.min == b.min && a.sec < b.sec)))))))))
  }

  /** The POSIX formula turns the order of dates into the order of numbers. */
  lemma TimegmMonotone(a: Tm, b: Tm)
    requires Valid(a) && Valid(b) && Earlier(a, b)
    ensures Timegm(a) < Timegm(b)
  {
    var da := DaysBeforeYear(a.year) + YearDay(a);
    var db := DaysBeforeYear(b.year) + YearDay(b);
    if a.year < b.year {
      YearsApart(a.year, b.year);
      assert da < db;
    } else {
      assert da < db || (da == db && a.mon == b.mon && a.mday == b.mday);
    }
  }

  lemma TimegmThenGmtime(tm: Tm)
    requires Valid(tm)
    ensures Timegm(tm) >= 0 && Gmtime(Timegm(tm)) == tm
  {
    if tm.year > 70 {
      YearsApart(70, tm.year);
    }
    assert DaysBeforeYear(70) == 0;
    var back := Gmtime(Timegm(tm));
    GmtimeThenTimegm(Timegm(tm));
    if Earlier(back, tm) {
      TimegmMonotone(back, tm);
    } else if Earlier(tm, back) {
      TimegmMonotone(tm, back);
    }
  }

  /** `Gmtime` keeps the order of instants. */
  lemma GmtimeMonotone(t: nat, u: nat)
    requires t < u
    ensures Earlier(Gmtime(t), Gmtime(u))
  {
    GmtimeThenTimegm(t);
    GmtimeThenTimegm(u);
    if Earlier(Gmtime(u), Gmtime(t)) {
      TimegmMonotone(Gmtime(u), Gmtime(t));
    }
  }

  /** The instants before the bound are exactly those with a four-digit year. */
  lemma FourDigitYear(t: nat)
    ensures 70 <= Gmtime(t).year
    ensures t < END_OF_9999 <==> Gmtime(t).year <= 8099
  {
    GmtimeThenTimegm(t);
    var year := Gmtime(t).year;
    assert DaysBeforeYear(8100) == 2932897;
    if year > 8100 {
      YearsApart(8100, year);
    }
    if year < 8100 {
      YearsApart(year, 8100);
    }
  }

  // ----- the Gregorian calendar, apart from the table and the formula

  /** Thirty days have September, April, June and November. */
  lemma MonthLengths(leap: bool, mon: int)
    requires 0 <= mon < 12
    ensures DaysInMonth(leap, mon) == 30 <==> mon in {3, 5, 8, 10}
    ensures mon == 1 ==> DaysInMonth(leap, mon) == if leap then 29 else 28
    ensures mon !in {1, 3, 5, 8, 10} ==> DaysInMonth(leap, mon) == 31
    ensures DaysBeforeMonth(leap, 0) == 0 && DaysBeforeMonth(leap, 12) == if leap then 366 else 365
  {
  }

  /** A year has a leap day exactly if four divides it, but of the full hundreds only those that 400 divides. */
  lemma GregorianYears(year: int)
    ensures DaysBeforeYear(year + 1) - DaysBeforeYear(year) == DaysInYear(year) == DaysBeforeMonth(IsLeap(year), 12)
    ensures DaysInYear(year) == 366 <==>
            var y := year + 1900; (y % 4 == 0 && y % 100 != 0) || y % 400 == 0
    ensures DaysBeforeYear(70) == 0
  {
    YearStep(year);
    FourDivides400(year + 1900);
  }

  lemma FourDivides400(y: int)
    ensures y % 400 == 0 ==> y % 4 == 0
  {
    if y % 400 == 0 {
      assert y == 4 * (100 * (y / 400));
    }
  }

  /** 8 December 2016, and the last and the first second of a leap February. */
  lemma DatesByHand()
    ensures Gmtime(1481155200) == Tm(116, 11, 8, 0, 0, 0)
    ensures Gmtime(951868799) == Tm(100, 1, 29, 23, 59, 59) && Gmtime(951868800) == Tm(100, 2, 1, 0, 0, 0)
  {
    hide Gmtime, Timegm, Valid;
    DateByHand(Tm(116, 11, 8, 0, 0, 0), 1481155200);
    DateByHand(Tm(100, 1, 29, 23, 59, 59), 951868799);
    DateByHand(Tm(100, 2, 1, 0, 0, 0), 951868800);
  }

  lemma DateByHand(tm: Tm, t: nat)
    requires (tm, t) in {(Tm(116, 11, 8, 0, 0, 0), 1481155200), (Tm(100, 1, 29, 23, 59, 59), 951868799),
                         (Tm(100, 2, 1, 0, 0, 0), 951868800)}
    ensures Gmtime(t) == tm
  {
    hide Gmtime;
    assert IsLeap(116) && IsLeap(100);
    assert DaysBeforeYear(116) == 16801 && DaysBeforeYear(100) == 10957;
    assert Timegm(tm) == t && Valid(tm);
    TimegmThenGmtime(tm);
  }
}
