/**
  Printing and parsing `system_clock` time points in the default format
  `YYYY-MM-DD HH:MM:SS.ffffff +hhmm`. A time point is a count of nanoseconds since the epoch.
 */
module Timestamp {
  import opened Wrappers
  import opened Decimal
  import opened Calendar
  import opened Rounding

  /**
    The two places where the code goes through a `double`: the printer's conversion of a nanosecond
    count to seconds, and the reader's conversion of decimal text to seconds.
   */
  datatype Fp = Fp(seconds: nat -> real, strtod: real -> real)

  const NS_PER_MINUTE := 60000000000

  /**
    On the values that occur, less than a minute, the printer is off by less than `tol` nanoseconds, at
    most half a microsecond, and the reader by less than half a microsecond.
   */
  ghost predicate Sound(fp: Fp, tol: real) {
    && tol <= 500.0
    && (forall n: nat :: n < NS_PER_MINUTE ==>
          0.0 <= fp.seconds(n) && -tol < fp.seconds(n) * 1000000000.0 - n as real < tol)
    && (forall v: real :: 0.0 <= v <= 60.0 ==>
          0.0 <= fp.strtod(v) && -1.0 < 2.0 * (fp.strtod(v) * 1000000.0 - v * 1000000.0) < 1.0)
  }

  /** Correct rounding never moves a count across the ten-second mark, which a double holds exactly. */
  ghost predicate KeepsTen(fp: Fp) {
    forall n: nat :: n < NS_PER_MINUTE ==> (fp.seconds(n) < 10.0 <==> n < 10000000000)
  }

  const NS_PER_SECOND := 1000000000

  // ----- printing

  /** `%F %H:%M:` */
  function DateText(tm: Tm): (s: string)
    requires Valid(tm)
    ensures |s| == 17
  {
    Pad(4, tm.year + 1900) + "-" + Pad(2, tm.mon + 1) + "-" + Pad(2, tm.mday) + " "
    + Pad(2, tm.hour) + ":" + Pad(2, tm.min) + ":"
  }

  /** `%z` after a space, for an offset in whole minutes east of UTC. */
  function ZoneText(zone: int): (s: string)
  {
    var size := if zone < 0 then -zone else zone;
    " " + (if zone < 0 then "-" else "+") + Pad(2, size / 60) + Pad(2, size % 60)
  }

  /** Microseconds in the fixed, six-digit rendering of a double number of seconds. */
  function Micros(x: real): (m: nat)
    requires x >= 0.0
  {
    HalfEven(x * 1000000.0)
  }

  function FixedText(m: nat): string {
    NatText(m / 1000000) + "." + Pad(6, m % 1000000)
  }

  function SecondsText(x: real): string
    requires x >= 0.0
  {
    (if x < 10.0 then "0" else "") + FixedText(Micros(x))
  }

  predicate InRange(ns: nat, zone: int) {
    -6000 < zone < 6000 && 0 <= ns / NS_PER_SECOND + 60 * zone < END_OF_9999
  }

  lemma LocalFacts(t: nat, zone: int)
    requires 0 <= t + 60 * zone < END_OF_9999
    ensures var tm := Gmtime(t + 60 * zone);
            Valid(tm) && Timegm(tm) == t + 60 * zone && tm.sec == t % 60 && tm.year <= 8099
  {
    hide Gmtime, Timegm, Valid;
    GmtimeThenTimegm(t + 60 * zone);
    FourDigitYear(t + 60 * zone);
    assert (t + 60 * zone) % 60 == t % 60;
  }

  function LocalOf(t: nat, zone: int): (tm: Tm)
    requires 0 <= t + 60 * zone < END_OF_9999
    ensures Valid(tm) && Timegm(tm) == t + 60 * zone && tm.sec == t % 60 && tm.year <= 8099
  {
    LocalFacts(t, zone);
    Gmtime(t + 60 * zone)
  }

  /** Broken-down time as the chosen zone shows it. */
  function LocalTm(ns: nat, zone: int): (tm: Tm)
    requires InRange(ns, zone)
    ensures Valid(tm) && Timegm(tm) == ns / NS_PER_SECOND + 60 * zone
    ensures tm.sec == ns / NS_PER_SECOND % 60 && tm.year <= 8099
  {
    LocalOf(ns / NS_PER_SECOND, zone)
  }

  /** The nanoseconds into the current minute, which the printer converts to a double. */
  function IntoMinute(ns: nat): nat {
    ns % NS_PER_SECOND + ns / NS_PER_SECOND % 60 * NS_PER_SECOND
  }

  function StampText(fp: Fp, ns: nat, zone: int): string
    requires InRange(ns, zone) && fp.seconds(IntoMinute(ns)) >= 0.0
  {
    DateText(LocalTm(ns, zone)) + SecondsText(fp.seconds(IntoMinute(ns))) + ZoneText(zone)
  }

  /** The seconds field: a zero in front of whatever is below ten before rounding. */
  method PrintSeconds(os: string, d: real) returns (r: string)
    requires d >= 0.0
    ensures r == os + SecondsText(d)
  {
    r := os;
    if d < 10.0 {
      r := r + "0";
    }
    r := r + FixedText(Micros(d));
  }

  /** The printer: `zone` is 0 unless the stream asked for local time. */
  method PrintTimePoint(fp: Fp, ns: nat, zone: int) returns (os: string)
    requires InRange(ns, zone) && fp.seconds(IntoMinute(ns)) >= 0.0
    ensures os == StampText(fp, ns, zone)
  {
    var t := ns / NS_PER_SECOND;
    var tm := LocalTm(ns, zone);
    var n: nat := IntoMinuteByParts(ns, t, tm.sec);
    os := PrintSeconds(DateText(tm), fp.seconds(n));
    os := os + ZoneText(zone);
  }

  /** The code's expression, the time point less its whole seconds plus the seconds field. */
  function IntoMinuteByParts(ns: nat, t: nat, sec: int): (n: int)
    requires t == ns / NS_PER_SECOND && sec == t % 60
    ensures n == IntoMinute(ns)
  {
    ns - t * NS_PER_SECOND + sec * NS_PER_SECOND
  }

  // ----- reading

  /** `%Y-%m-%d %H:%M:` at position `i`: fixed-width fields, each in its range. */
  function DateFields(s: string, i: nat): (r: Option<Tm>)
    requires i <= |s|
    ensures r.Some? ==> i + 17 <= |s| && 0 <= r.value.mon < 12
  {
    if i + 17 <= |s|
       && AllDigits(s[i..i + 4]) && s[i + 4] == '-' && AllDigits(s[i + 5..i + 7]) && s[i + 7] == '-'
       && AllDigits(s[i + 8..i + 10]) && s[i + 10] == ' ' && AllDigits(s[i + 11..i + 13]) && s[i + 13] == ':'
       && AllDigits(s[i + 14..i + 16]) && s[i + 16] == ':'
    then
      var tm := Tm(Value(s[i..i + 4]) - 1900, Value(s[i + 5..i + 7]) - 1, Value(s[i + 8..i + 10]),
                   Value(s[i + 11..i + 13]), Value(s[i + 14..i + 16]), 0);
      if 0 <= tm.mon < 12 && 1 <= tm.mday <= 31 && tm.hour < 24 && tm.min < 60 then Some(tm) else None
    else None
  }

  /** An unsigned decimal number at or after `i`: its value and where it ends. */
  function DecimalAt(s: string, i: nat): (r: Option<(real, nat)>)
    requires i <= |s|
    ensures r.Some? ==> 0.0 <= r.value.0 && r.value.1 <= |s|
  {
    var a := SkipSpace(s, i);
    var j := RunEnd(s, a);
    if j < |s| && s[j] == '.' then
      var k := RunEnd(s, j + 1);
      if j == a && k == j + 1 then None
      else Some((Value(s[a..j] + s[j + 1..k]) as real / Pow10(k - j - 1) as real, k))
    else if j == a then None
    else Some((Value(s[a..j]) as real, j))
  }

  /** A space, a sign and four digits. */
  predicate ZoneAt(s: string, p: nat) {
    && p + 6 <= |s| && s[p] == ' ' && (s[p + 1] == '+' || s[p + 1] == '-')
    && AllDigits(s[p + 2..p + 4]) && AllDigits(s[p + 4..p + 6])
  }

  /** Minutes east of UTC. */
  function ZoneMinutes(s: string, p: nat): int
    requires ZoneAt(s, p)
  {
    var size := 60 * Value(s[p + 2..p + 4]) + Value(s[p + 4..p + 6]);
    if s[p + 1] == '-' then -size else size
  }

  /** The instant a text denotes, by fixed positions around the decimal seconds. */
  function TimePointOf(fp: Fp, s: string): Option<int> {
    var i := SkipSpace(s, 0);
    var date := DateFields(s, i);
    if date.None? then None else
    var number := DecimalAt(s, i + 17);
    if number.None? || !ZoneAt(s, number.value.1) then None else
    var (v, p) := number.value;
    Some((Timegm(date.value) - 60 * ZoneMinutes(s, p)) * NS_PER_SECOND
         + 1000 * Rounded(fp.strtod(v) * 1000000.0))
  }

  /** The reader of the offset: one character at a time, each read checked for the end of input. */
  method ReadZone(s: string, p: nat) returns (r: Option<int>)
    requires p <= |s|
    ensures r == if ZoneAt(s, p) then Some(-ZoneMinutes(s, p)) else None
  {
    var i := p;
    if i == |s| || i + 1 == |s| || s[i] != ' ' {
      return None;
    }
    i := i + 1;
    if i + 1 == |s| || (s[i] != '+' && s[i] != '-') {
      return None;
    }
    var n := if s[i] == '-' then 1 else -1;
    i := i + 1;
    if i + 1 == |s| || !IsDigit(s[i]) {
      assert p + 6 <= |s| ==> s[p + 2..p + 4][0] == s[i];
      return None;
    }
    var min := DigitValue(s[i]) * 600;
    i := i + 1;
    if i + 1 == |s| || !IsDigit(s[i]) {
      assert p + 6 <= |s| ==> s[p + 2..p + 4][1] == s[i];
      return None;
    }
    min := min + DigitValue(s[i]) * 60;
    i := i + 1;
    if i + 1 == |s| || !IsDigit(s[i]) {
      assert p + 6 <= |s| ==> s[p + 4..p + 6][0] == s[i];
      return None;
    }
    min := min + DigitValue(s[i]) * 10;
    i := i + 1;
    if !IsDigit(s[i]) {
      assert s[p + 4..p + 6][1] == s[i];
      return None;
    }
    min := min + DigitValue(s[i]);
    min := min * n;
    TwoDigits(s[p + 2..p + 4]);
    TwoDigits(s[p + 4..p + 6]);
    return Some(min);
  }

  /** The reader: the instant is left unset as soon as a part of the text does not fit. */
  method ReadTimePoint(fp: Fp, s: string) returns (tp: Option<int>)
    ensures tp == TimePointOf(fp, s)
  {
    hide DateFields, DecimalAt, ZoneAt, ZoneMinutes, Rounded, Timegm;
    var i := SkipSpace(s, 0);
    var date := DateFields(s, i);
    if date.None? {
      return None;
    }
    i := i + 17;
    var number := DecimalAt(s, i);
    if number.None? {
      return None;
    }
    var sec := fp.strtod(number.value.0);
    var min := ReadZone(s, number.value.1);
    if min.None? {
      return None;
    }
    var micros := Round(sec * 1000000.0);
    return Some(Timegm(date.value) * NS_PER_SECOND + min.value * 60 * NS_PER_SECOND + micros * 1000);
  }

  lemma TwoDigits(d: string)
    requires |d| == 2 && AllDigits(d)
    ensures Value(d) == 10 * DigitValue(d[0]) + DigitValue(d[1])
  {
    assert Value(d[..1]) == 10 * Value(d[..1][..0]) + DigitValue(d[0]);
  }
}
