/** Timestamps as the Android client writes and reads them: pattern `yyyy-MM-dd HH:mm:ss.SSSSSS Z`, in milliseconds. */
module ClientTime {
  import opened Wrappers
  import opened Decimal
  import opened Calendar
  import opened Rounding
  import opened Timestamp
  import opened TimestampLaws

  const NS_PER_MS := 1000000

  /** An instant in milliseconds, shown in a zone `zone` minutes east of UTC. */
  function ClientText(ms: nat, zone: int): string
    requires InRange(ms * NS_PER_MS, zone)
  {
    PlainStamp(LocalTm(ms * NS_PER_MS, zone), ms % 1000 * 1000, zone)
  }

  /** The server reads the client's local time, offset and all, as the client's instant. */
  lemma ServerReadsClient(fp: Fp, tol: real, ms: nat, zone: int)
    requires Sound(fp, tol) && InRange(ms * NS_PER_MS, zone)
    ensures TimePointOf(fp, ClientText(ms, zone)) == Some(ms * NS_PER_MS)
  {
    hide TimePointOf, PlainStamp, LocalTm, Timegm, InRange, Sound, Valid;
    ClientParts(ms, zone);
    PlainStampReadsBack(fp, tol, LocalTm(ms * NS_PER_MS, zone), ms % 1000 * 1000, zone);
  }

  lemma ClientParts(ms: nat, zone: int)
    requires InRange(ms * NS_PER_MS, zone)
    ensures var tm := LocalTm(ms * NS_PER_MS, zone);
            && Valid(tm) && tm.year <= 8099 && -6000 < zone < 6000
            && ClientText(ms, zone) == PlainStamp(tm, ms % 1000 * 1000, zone)
            && (Timegm(tm) - tm.sec - 60 * zone) * NS_PER_SECOND + 1000 * (1000000 * tm.sec + ms % 1000 * 1000)
               == ms * NS_PER_MS
  {
    hide LocalTm, Timegm, PlainStamp;
    var ns := ms * NS_PER_MS;
    assert ns / NS_PER_SECOND == ms / 1000;
    assert ms == ms / 1000 * 1000 + ms % 1000;
  }

  // ----- what the client reads

  /**
    The pattern's reader on fixed widths: two digits of seconds below sixty, six digits of fraction of
    which three count, and an offset of less than a day. Nothing may be left over.
   */
  function ClientTimeOf(s: string): Option<int> {
    var date := DateFields(s, 0);
    if |s| != 32 || date.None? || date.value.mday > DaysInMonth(IsLeap(date.value.year), date.value.mon)
       || !AllDigits(s[17..19]) || s[19] != '.' || !AllDigits(s[20..26]) || !ZoneAt(s, 26)
    then None
    else
      var sec := Value(s[17..19]);
      if sec < 60 && Value(s[28..30]) < 24 && Value(s[30..32]) < 60 then
        Some((Timegm(date.value) + sec - 60 * ZoneMinutes(s, 26)) * 1000 + Value(s[20..26]) / 1000)
      else None
  }

  /** The reader on any text with the fixed date and offset around nine characters of seconds. */
  lemma ClientReadsParts(tm: Tm, sec: nat, us: nat, zone: int)
    requires Valid(tm) && tm.year <= 8099 && sec < 100 && us < 1000000 && -1440 < zone < 1440
    ensures ClientTimeOf(DateText(tm) + (Pad(2, sec) + "." + Pad(6, us)) + ZoneText(zone)) ==
            if sec < 60 then Some((Timegm(tm) - tm.sec + sec - 60 * zone) * 1000 + us / 1000) else None
  {
    hide *;
    SmallPowers();
    PadValue(2, sec);
    PadValue(6, us);
    var (date, middle, z) := (DateText(tm), Pad(2, sec) + "." + Pad(6, us), ZoneText(zone));
    var s := date + middle + z;
    assert s == date + (middle + z);
    DateReadsBack(tm, middle + z);
    ZoneReadsBack(date + middle, zone);
    ZoneParts(date + middle, zone);
    TimegmOfMinute(tm);
    DayExists(tm);
    ClientPositions(s, date, Pad(2, sec), Pad(6, us), z);
    ClientReadsFields(s, tm.(sec := 0), sec, us, zone);
  }

  lemma ClientPositions(s: string, date: string, sec: string, us: string, z: string)
    requires |date| == 17 && |sec| == 2 && |us| == 6 && s == date + (sec + "." + us) + z
    ensures s[17..19] == sec && s[19] == '.' && s[20..26] == us
  {
  }

  lemma DayExists(tm: Tm)
    requires Valid(tm)
    ensures 0 <= tm.mon < 12 && tm.mday <= DaysInMonth(IsLeap(tm.year), tm.mon)
  {
  }

  lemma ZoneParts(a: string, zone: int)
    requires -1440 < zone < 1440 && |a| == 26
    ensures var s := a + ZoneText(zone);
            |s| == 32 && Value(s[28..30]) < 24 && Value(s[30..32]) < 60
  {
    hide Value, Pad, Pow10;
    var s := a + ZoneText(zone);
    var size := if zone < 0 then -zone else zone;
    SmallPowers();
    PadValue(2, size / 60);
    PadValue(2, size % 60);
    assert s[28..30] == Pad(2, size / 60) && s[30..32] == Pad(2, size % 60);
  }

  lemma ClientReadsFields(s: string, date: Tm, sec: nat, us: nat, zone: int)
    requires |s| == 32 && DateFields(s, 0) == Some(date) && ZoneAt(s, 26) && ZoneMinutes(s, 26) == zone
    requires 0 <= date.mon < 12 && date.mday <= DaysInMonth(IsLeap(date.year), date.mon)
    requires AllDigits(s[17..19]) && s[19] == '.' && AllDigits(s[20..26])
    requires Value(s[17..19]) == sec && Value(s[20..26]) == us && Value(s[28..30]) < 24 && Value(s[30..32]) < 60
    ensures ClientTimeOf(s) == if sec < 60 then Some((Timegm(date) + sec - 60 * zone) * 1000 + us / 1000) else None
  {
    hide DateFields, ZoneAt, ZoneMinutes, Timegm, Value, AllDigits, DaysInMonth, IsLeap;
  }

  /** With a third digit before the point the text is too long for the pattern, and has no point where it wants one. */
  lemma ClientRefusesThreeDigits(tm: Tm, zone: int)
    requires Valid(tm)
    ensures ClientTimeOf(DateText(tm) + "010.000000" + ZoneText(zone)) == None
  {
    hide Timegm, Valid, ZoneAt, ZoneMinutes, DateFields, Value;
    var s := DateText(tm) + "010.000000" + ZoneText(zone);
    assert |s| == 33;
  }

  /** Both ways of the client undo each other. */
  lemma ClientReadsClient(ms: nat, zone: int)
    requires InRange(ms * NS_PER_MS, zone) && -1440 < zone < 1440
    ensures ClientTimeOf(ClientText(ms, zone)) == Some(ms)
  {
    hide ClientTimeOf, LocalTm, Timegm, ClientText, Valid, InRange, PlainStamp, DateText, ZoneText, Pad;
    var tm := LocalTm(ms * NS_PER_MS, zone);
    ClientParts(ms, zone);
    LocalSeconds(ms * NS_PER_MS, zone);
    ClientReadsParts(tm, tm.sec, ms % 1000 * 1000, zone);
    PlainStampParts(tm, ms % 1000 * 1000, zone);
    assert (ms % 1000 * 1000) / 1000 == ms % 1000;
  }

  /** The printed seconds have two digits before the point and are below sixty. */
  predicate SecondsArePlain(x: real)
    requires x >= 0.0
  {
    Micros(x) < 60000000 && !(x < 10.0 && Micros(x) == 10000000)
  }

  /**
    The client takes a server timestamp exactly if its seconds are plain. It then gets the instant that the
    server itself would read, less the digits below a millisecond.
   */
  lemma ClientReadsServer(fp: Fp, tol: real, ns: nat)
    requires Sound(fp, tol) && InRange(ns, 0)
    ensures fp.seconds(IntoMinute(ns)) >= 0.0
    ensures ClientTimeOf(StampText(fp, ns, 0)) ==
            if SecondsArePlain(fp.seconds(IntoMinute(ns))) then Some(ComesBackAs(fp, ns) / NS_PER_MS) else None
  {
    hide *;
    SoundHere(fp, tol, ns, 0);
    var x := fp.seconds(IntoMinute(ns));
    var tm := LocalTm(ns, 0);
    StampTextParts(fp, ns, 0);
    MinuteStart(ns, 0);
    LocalSeconds(ns, 0);
    LocalYear(ns, 0);
    DayExists(tm);
    SecondsTextForms(x);
    PlainMeans(x);
    if x < 10.0 && Micros(x) == 10000000 {
      ClientRefusesThreeDigits(tm, 0);
    } else {
      ClientReadsParts(tm, Micros(x) / 1000000, Micros(x) % 1000000, 0);
      ToMillis(ns, IntoMinute(ns), Timegm(tm) - tm.sec, Micros(x));
    }
  }

  lemma LocalYear(ns: nat, zone: int)
    requires InRange(ns, zone)
    ensures LocalTm(ns, zone).year <= 8099
  {
    hide LocalTm;
  }

  lemma PlainMeans(x: real)
    requires x >= 0.0
    ensures SecondsArePlain(x) <==> Micros(x) / 1000000 < 60 && !(x < 10.0 && Micros(x) == 10000000)
  {
    hide Micros;
  }

  lemma ToMillis(ns: nat, n: nat, minute: int, m: nat)
    requires minute * NS_PER_SECOND == ns - n
    ensures (minute + m / 1000000) * 1000 + m % 1000000 / 1000 == (ns - n + 1000 * m) / NS_PER_MS
  {
    assert m == 1000000 * (m / 1000000) + m % 1000000;
    assert ns - n + 1000 * m == NS_PER_MS * ((minute + m / 1000000) * 1000) + 1000 * (m % 1000000);
  }

  /** The seconds field in every case, also when rounding error puts the double at the next minute. */
  lemma SecondsTextForms(x: real)
    requires 0.0 <= x && Micros(x) <= 60000000
    ensures x < 10.0 && Micros(x) == 10000000 ==> SecondsText(x) == "010.000000"
    ensures !(x < 10.0 && Micros(x) == 10000000) ==>
              SecondsText(x) == Pad(2, Micros(x) / 1000000) + "." + Pad(6, Micros(x) % 1000000)
  {
    TenSecondsMark(x);
    hide Pad, NatText, Micros;
    if x < 10.0 && Micros(x) == 10000000 {
      ThreeDigits(x);
    }
    TwoDigitText(Micros(x) / 1000000);
  }

  lemma TenSecondsMark(x: real)
    requires 0.0 <= x
    ensures x < 10.0 ==> Micros(x) <= 10000000
    ensures x >= 10.0 ==> Micros(x) >= 10000000
  {
    NearestIsUnique(Micros(x), x * 1000000.0);
  }

  /** Whole microseconds are always read, to the millisecond. */
  lemma ClientReadsWholeMicros(fp: Fp, ns: nat)
    requires Sound(fp, 1.0) && KeepsTen(fp) && InRange(ns, 0) && ns % 1000 == 0
    ensures ClientTimeOf(StampText(fp, ns, 0)) == Some(ns / NS_PER_MS)
  {
    ClientReadsServer(fp, 1.0, ns);
    RoundTripLoss(fp, 1.0, ns);
    WholeMicrosArePlain(fp, ns);
    hide ClientTimeOf, StampText, Sound, KeepsTen, ComesBackAs, InRange;
  }

  lemma WholeMicrosArePlain(fp: Fp, ns: nat)
    requires Sound(fp, 1.0) && KeepsTen(fp) && ns % 1000 == 0
    ensures fp.seconds(IntoMinute(ns)) >= 0.0 && SecondsArePlain(fp.seconds(IntoMinute(ns)))
  {
    WholeMicrosCount(ns);
    WholeMinutes(ns);
    ExactMicros(fp.seconds(IntoMinute(ns)), IntoMinute(ns) / 1000);
    hide IntoMinute, Micros;
  }

  /** Exact conversions, which meet the assumptions made of the double. */
  const EXACT := Fp((n: nat) => n as real / 1000000000.0, (v: real) => v)

  lemma ExactIsSound()
    ensures Sound(EXACT, 1.0) && KeepsTen(EXACT)
  {
    forall n: nat ensures EXACT.seconds(n) * 1000000000.0 == n as real {
    }
  }

  /** The instants that the client cannot read: the last half microsecond before ten seconds, or before a minute. */
  lemma UnreadableInstants(ns: nat)
    requires InRange(ns, 0)
    ensures ClientTimeOf(StampText(EXACT, ns, 0)) == None <==>
            var n := IntoMinute(ns);
            9999999500 <= n < 10000000000 || 59999999500 <= n
  {
    ExactIsSound();
    ClientReadsServer(EXACT, 1.0, ns);
    WholeMinutes(ns);
    ExactlyPlain(IntoMinute(ns));
    hide ClientTimeOf, StampText, Sound, KeepsTen, IntoMinute, SecondsArePlain;
  }

  lemma ExactlyPlain(n: nat)
    requires n < 60000000000
    ensures EXACT.seconds(n) >= 0.0
    ensures SecondsArePlain(EXACT.seconds(n)) <==> !(9999999500 <= n < 10000000000 || 59999999500 <= n)
  {
    var x := EXACT.seconds(n);
    assert x * 1000000.0 == n as real / 1000.0;
    NearestIsUnique(Micros(x), x * 1000000.0);
  }
}
