/** What printing a time point and reading it back keeps. */
module TimestampLaws {
  import opened Wrappers
  import opened Decimal
  import opened Calendar
  import opened Rounding
  import opened Timestamp

  // ----- reading back the parts

  lemma DatePositions(y: string, mo: string, d: string, h: string, mi: string, rest: string)
    requires |y| == 4 && |mo| == |d| == |h| == |mi| == 2
    ensures var s := y + "-" + mo + "-" + d + " " + h + ":" + mi + ":" + rest;
            && |s| == 17 + |rest|
            && s[0..4] == y && s[5..7] == mo && s[8..10] == d && s[11..13] == h && s[14..16] == mi
            && s[4] == s[7] == '-' && s[10] == ' ' && s[13] == s[16] == ':'
  {
  }

  lemma DateReadsBack(tm: Tm, rest: string)
    requires Valid(tm) && tm.year <= 8099
    ensures SkipSpace(DateText(tm) + rest, 0) == 0
    ensures DateFields(DateText(tm) + rest, 0) == Some(tm.(sec := 0))
  {
    hide *;
    var s := DateText(tm) + rest;
    DateTextParts(tm, rest);
    SmallPowers();
    PadValue(4, tm.year + 1900);
    PadValue(2, tm.mon + 1);
    PadValue(2, tm.mday);
    PadValue(2, tm.hour);
    PadValue(2, tm.min);
    DatePositions(Pad(4, tm.year + 1900), Pad(2, tm.mon + 1), Pad(2, tm.mday), Pad(2, tm.hour), Pad(2, tm.min), rest);
    DateFieldsAre(s, tm);
  }

  lemma DateTextParts(tm: Tm, rest: string)
    requires Valid(tm)
    ensures DateText(tm) + rest == Pad(4, tm.year + 1900) + "-" + Pad(2, tm.mon + 1) + "-" + Pad(2, tm.mday) + " "
                                   + Pad(2, tm.hour) + ":" + Pad(2, tm.min) + ":" + rest
    ensures 0 <= tm.mon < 12 && 1 <= tm.mday <= 31 && 0 <= tm.hour < 24 && 0 <= tm.min < 60 && tm.year >= 70
  {
  }

  lemma DateFieldsAre(s: string, tm: Tm)
    requires Valid(tm) && |s| >= 17
    requires AllDigits(s[0..4]) && AllDigits(s[5..7]) && AllDigits(s[8..10]) && AllDigits(s[11..13]) && AllDigits(s[14..16])
    requires s[4] == s[7] == '-' && s[10] == ' ' && s[13] == s[16] == ':'
    requires Value(s[0..4]) == tm.year + 1900 && Value(s[5..7]) == tm.mon + 1 && Value(s[8..10]) == tm.mday
    requires Value(s[11..13]) == tm.hour && Value(s[14..16]) == tm.min
    ensures SkipSpace(s, 0) == 0 && DateFields(s, 0) == Some(tm.(sec := 0))
  {
    hide Value;
    assert IsDigit(s[0..4][0]);
  }

  lemma {:induction false} RunEndIs(s: string, i: nat, j: nat)
    requires i <= j <= |s| && AllDigits(s[i..j]) && (j < |s| ==> !IsDigit(s[j]))
    ensures RunEnd(s, i) == j
    decreases j - i
  {
    if i < j {
      assert s[i] == s[i..j][0];
      assert s[i + 1..j] == s[i..j][1..];
      RunEndIs(s, i + 1, j);
    }
  }

  /** Digits from `i` to `j`, a point, and digits up to `k`, where something else follows. */
  lemma DecimalReadsBack(s: string, i: nat, j: nat, k: nat)
    requires i < j < k < |s| && AllDigits(s[i..j]) && s[j] == '.' && AllDigits(s[j + 1..k]) && !IsDigit(s[k])
    ensures DecimalAt(s, i) == Some((Value(s[i..j] + s[j + 1..k]) as real / Pow10(k - j - 1) as real, k))
  {
    hide Value;
    RunEndIs(s, i, j);
    RunEndIs(s, j + 1, k);
    assert s[i] == s[i..j][0];
  }

  lemma ZoneReadsBack(a: string, zone: int)
    requires -6000 < zone < 6000
    ensures ZoneAt(a + ZoneText(zone), |a|) && ZoneMinutes(a + ZoneText(zone), |a|) == zone
  {
    hide Value, Pad, Pow10;
    var s := a + ZoneText(zone);
    var size := if zone < 0 then -zone else zone;
    SmallPowers();
    PadValue(2, size / 60);
    PadValue(2, size % 60);
    assert s[|a| + 2..|a| + 4] == Pad(2, size / 60);
    assert s[|a| + 4..|a| + 6] == Pad(2, size % 60);
  }

  /** Any text made of a date, decimal seconds with six digits after the point, and an offset. */
  lemma StampReadsBack(fp: Fp, tol: real, tm: Tm, d: string, f: string, m: nat, zone: int)
    requires Sound(fp, tol) && Valid(tm) && tm.year <= 8099 && -6000 < zone < 6000
    requires AllDigits(d) && d != [] && AllDigits(f) && |f| == 6
    requires 1000000 * Value(d) + Value(f) == m <= 60000000
    ensures TimePointOf(fp, DateText(tm) + (d + "." + f) + ZoneText(zone)) ==
            Some((Timegm(tm) - tm.sec - 60 * zone) * NS_PER_SECOND + 1000 * m)
  {
    hide *;
    var date, z := DateText(tm), ZoneText(zone);
    var s := date + (d + "." + f) + z;
    TimegmOfMinute(tm);
    ZoneStartsPlain(zone);
    StampPositions(date, d, f, z);
    assert s == date + ((d + "." + f) + z);
    DateReadsBack(tm, (d + "." + f) + z);
    DecimalReadsBack(s, 17, 17 + |d|, 24 + |d|);
    assert s == (date + (d + "." + f)) + z;
    ZoneReadsBack(date + (d + "." + f), zone);
    NumberRead(d, f, m);
    MicrosReadBack(fp, tol, m);
    StampParts(fp, s, tm, m, 24 + |d|);
  }

  lemma ZoneStartsPlain(zone: int)
    ensures ZoneText(zone) != [] && !IsDigit(ZoneText(zone)[0])
    ensures !IsDigit('.')
  {
  }

  lemma TimegmOfMinute(tm: Tm)
    requires Valid(tm)
    ensures 0 <= tm.mon < 12 && Timegm(tm.(sec := 0)) == Timegm(tm) - tm.sec
  {
  }

  lemma NumberRead(d: string, f: string, m: nat)
    requires AllDigits(d) && AllDigits(f) && |f| == 6 && 1000000 * Value(d) + Value(f) == m
    ensures AllDigits(d + f) && Value(d + f) as real / Pow10(6) as real == m as real / 1000000.0
  {
    hide Value, Pow10;
    SmallPowers();
    ValueAppend(d, f);
  }

  lemma StampPositions(date: string, d: string, f: string, z: string)
    requires |date| == 17 && |f| == 6 && z != []
    ensures var s := date + (d + "." + f) + z;
            var (j, k) := (17 + |d|, 24 + |d|);
            && |s| == k + |z| && s[17..j] == d && s[j] == '.' && s[j + 1..k] == f && s[k] == z[0]
            && |date + (d + "." + f)| == k
  {
  }

  /** The reader's result from what each of its parts found. */
  lemma StampParts(fp: Fp, s: string, tm: Tm, m: nat, k: nat)
    requires SkipSpace(s, 0) == 0 && DateFields(s, 0) == Some(tm.(sec := 0))
    requires 17 <= |s| && DecimalAt(s, 17) == Some((m as real / 1000000.0, k)) && ZoneAt(s, k)
    requires Rounded(fp.strtod(m as real / 1000000.0) * 1000000.0) == m
    requires 0 <= tm.mon < 12
    ensures TimePointOf(fp, s) ==
            Some((Timegm(tm.(sec := 0)) - 60 * ZoneMinutes(s, k)) * NS_PER_SECOND + 1000 * m)
  {
    hide DateFields, DecimalAt, ZoneAt, ZoneMinutes, SkipSpace, Rounded, Timegm;
  }

  lemma MicrosReadBack(fp: Fp, tol: real, m: nat)
    requires Sound(fp, tol) && m <= 60000000
    ensures Rounded(fp.strtod(m as real / 1000000.0) * 1000000.0) == m
  {
    var v := m as real / 1000000.0;
    assert 0.0 <= v <= 60.0 && v * 1000000.0 == m as real;
    assert 0.0 <= fp.strtod(v);
    AbsorbsError(m, fp.strtod(v) * 1000000.0);
  }

  // ----- the round trip

  /** The instant that comes back: the minute, plus the printed microseconds. */
  function ComesBackAs(fp: Fp, ns: nat): int
    requires fp.seconds(IntoMinute(ns)) >= 0.0
  {
    ns - IntoMinute(ns) + 1000 * Micros(fp.seconds(IntoMinute(ns)))
  }

  lemma WholeMinutes(ns: nat)
    ensures (ns / NS_PER_SECOND - ns / NS_PER_SECOND % 60) * NS_PER_SECOND == ns - IntoMinute(ns)
    ensures (ns - IntoMinute(ns)) % 60000000000 == 0 && 0 <= IntoMinute(ns) < 60000000000
  {
    var t := ns / NS_PER_SECOND;
    assert ns == t * NS_PER_SECOND + ns % NS_PER_SECOND;
    assert t == t / 60 * 60 + t % 60;
    assert ns - IntoMinute(ns) == t / 60 * 60000000000;
  }

  /** Parsing the printed text always succeeds, in every form the seconds field takes. */
  lemma PrintedIsRead(fp: Fp, tol: real, ns: nat, zone: int)
    requires Sound(fp, tol) && InRange(ns, zone)
    ensures TimePointOf(fp, StampText(fp, ns, zone)) == Some(ComesBackAs(fp, ns))
  {
    hide *;
    SoundHere(fp, tol, ns, zone);
    var x := fp.seconds(IntoMinute(ns));
    var tm := LocalTm(ns, zone);
    StampTextParts(fp, ns, zone);
    MinuteStart(ns, zone);
    SecondsTextValue(x);
    StampReadsBack(fp, tol, tm, WholeSecondsText(x), Pad(6, Micros(x) % 1000000), Micros(x), zone);
  }

  lemma SoundHere(fp: Fp, tol: real, ns: nat, zone: int)
    requires Sound(fp, tol) && InRange(ns, zone)
    ensures fp.seconds(IntoMinute(ns)) >= 0.0 && -6000 < zone < 6000
    ensures ComesBackAs(fp, ns) == ns - IntoMinute(ns) + 1000 * Micros(fp.seconds(IntoMinute(ns)))
    ensures Micros(fp.seconds(IntoMinute(ns))) <= 60000000
  {
    WholeMinutes(ns);
    MinuteMicros(fp.seconds(IntoMinute(ns)));
  }

  lemma MinuteMicros(x: real)
    requires 0.0 <= x && x * 1000000000.0 < 60000000500.0
    ensures Micros(x) <= 60000000
  {
    assert x * 1000000000.0 == 1000.0 * (x * 1000000.0);
    NearestIsUnique(Micros(x), x * 1000000.0);
  }

  lemma StampTextParts(fp: Fp, ns: nat, zone: int)
    requires InRange(ns, zone) && fp.seconds(IntoMinute(ns)) >= 0.0
    ensures StampText(fp, ns, zone) ==
            DateText(LocalTm(ns, zone)) + SecondsText(fp.seconds(IntoMinute(ns))) + ZoneText(zone)
  {
  }

  lemma MinuteStart(ns: nat, zone: int)
    requires InRange(ns, zone)
    ensures var tm := LocalTm(ns, zone);
            (Timegm(tm) - tm.sec - 60 * zone) * NS_PER_SECOND == ns - IntoMinute(ns)
  {
    WholeMinutes(ns);
    hide Timegm, LocalTm;
  }

  function WholeSecondsText(x: real): string
    requires x >= 0.0
  {
    (if x < 10.0 then "0" else "") + NatText(Micros(x) / 1000000)
  }

  lemma SecondsTextValue(x: real)
    requires x >= 0.0
    ensures var (d, f) := (WholeSecondsText(x), Pad(6, Micros(x) % 1000000));
            && SecondsText(x) == d + "." + f
            && d != [] && AllDigits(d) && 1000000 * Value(d) + Value(f) == Micros(x)
  {
    hide Micros, Value, NatText, Pad, Pow10;
    var whole := Micros(x) / 1000000;
    assert 1000000 * whole + Micros(x) % 1000000 == Micros(x);
    NatTextValue(whole);
    SmallPowers();
    PadValue(6, Micros(x) % 1000000);
    if x < 10.0 {
      ValueAppend("0", NatText(whole));
      TwoZeros();
    } else {
      assert WholeSecondsText(x) == NatText(whole);
    }
  }

  lemma TwoZeros()
    ensures Value("0") == 0
  {
    assert "0"[..0] == [];
  }

  /** Half a microsecond of rounding plus the printer's error bounds the loss. */
  lemma RoundTripError(fp: Fp, tol: real, ns: nat)
    requires Sound(fp, tol)
    ensures ComesBackAs(fp, ns) % 1000 == 0
    ensures -(500.0 + tol) < (ComesBackAs(fp, ns) - ns) as real < 500.0 + tol
  {
    var n: int := IntoMinute(ns);
    var x := fp.seconds(n);
    var m := Micros(x);
    NearestIsUnique(m, x * 1000000.0);
    WholeMinutes(ns);
    hide IntoMinute, Micros, HalfEven;
    assert ComesBackAs(fp, ns) - ns == 1000 * m - n;
    assert x * 1000000000.0 == 1000.0 * (x * 1000000.0);
  }

  lemma RoundTripLoss(fp: Fp, tol: real, ns: nat)
    requires Sound(fp, tol)
    ensures var back := ComesBackAs(fp, ns);
            && back % 1000 == 0 && -1000 < back - ns < 1000
            && (tol <= 1.0 ==> -500 <= back - ns <= 500)
            && (back == ns <==> ns % 1000 == 0)
  {
    RoundTripError(fp, tol, ns);
    hide ComesBackAs, Sound;
    var loss := ComesBackAs(fp, ns) - ns;
    assert -1000.0 < loss as real < 1000.0;
    if tol <= 1.0 {
      assert -501.0 < loss as real < 501.0;
    }
    if ns % 1000 == 0 {
      assert loss % 1000 == 0;
    }
  }

  /** Printing then parsing keeps every instant to the nearest microsecond, and whole microseconds exactly. */
  lemma RoundTrip(fp: Fp, tol: real, ns: nat, zone: int)
    requires Sound(fp, tol) && InRange(ns, zone)
    ensures var r := TimePointOf(fp, StampText(fp, ns, zone));
            && r.Some? && r.value % 1000 == 0
            && -1000 < r.value - ns < 1000
            && (tol <= 1.0 ==> -500 <= r.value - ns <= 500)
            && (r.value == ns <==> ns % 1000 == 0)
  {
    hide *;
    PrintedIsRead(fp, tol, ns, zone);
    RoundTripLoss(fp, tol, ns);
  }

  /** Reading what was printed keeps the order of instants. */
  lemma RoundTripMonotone(fp: Fp, ns: nat, later: nat, zone: int, zone': int)
    requires Sound(fp, 1.0) && ns <= later && InRange(ns, zone) && InRange(later, zone')
    ensures TimePointOf(fp, StampText(fp, ns, zone)).Some? && TimePointOf(fp, StampText(fp, later, zone')).Some?
    ensures TimePointOf(fp, StampText(fp, ns, zone)).value <= TimePointOf(fp, StampText(fp, later, zone')).value
  {
    hide *;
    PrintedIsRead(fp, 1.0, ns, zone);
    PrintedIsRead(fp, 1.0, later, zone');
    RoundTripLoss(fp, 1.0, ns);
    RoundTripLoss(fp, 1.0, later);
  }

  /** A second trip changes nothing. */
  lemma RoundTripIdempotent(fp: Fp, tol: real, ns: nat, zone: int, zone': int)
    requires Sound(fp, tol) && InRange(ns, zone)
    ensures var r := TimePointOf(fp, StampText(fp, ns, zone));
            r.Some? && (0 <= r.value && InRange(r.value, zone') ==>
                          TimePointOf(fp, StampText(fp, r.value, zone')) == r)
  {
    RoundTrip(fp, tol, ns, zone);
    var r := TimePointOf(fp, StampText(fp, ns, zone));
    if 0 <= r.value && InRange(r.value, zone') {
      RoundTrip(fp, tol, r.value, zone');
    }
  }

  // ----- odd forms, and order as text

  /**
    Without a carry the seconds take two digits, a point and six digits. Rounding up to ten seconds
    prints a third digit, and rounding up to the next minute prints sixty seconds.
   */
  lemma SecondsForms(x: real)
    requires 0.0 <= x < 60.0
    ensures Micros(x) <= 60000000
    ensures SecondsText(x) == Pad(2, Micros(x) / 1000000) + "." + Pad(6, Micros(x) % 1000000)
            <==> !(x < 10.0 && Micros(x) == 10000000)
    ensures x < 10.0 && Micros(x) == 10000000 ==> SecondsText(x) == "010.000000"
    ensures Micros(x) == 60000000 ==> SecondsText(x) == "60.000000"
  {
    hide SecondsText, Pad, Micros;
    MicrosBounds(x);
    if x < 10.0 && Micros(x) == 10000000 {
      ThreeDigits(x);
      assert |"010.000000"| == 10;
    } else {
      PlainForm(x);
      SixtySeconds();
    }
  }

  lemma PlainForm(x: real)
    requires 0.0 <= x < 60.0 && !(x < 10.0 && Micros(x) == 10000000)
    ensures SecondsText(x) == Pad(2, Micros(x) / 1000000) + "." + Pad(6, Micros(x) % 1000000)
  {
    hide NatText, Pad, Micros;
    MicrosBounds(x);
    TwoDigitText(Micros(x) / 1000000);
  }

  lemma SixtySeconds()
    ensures Pad(2, 60) + "." + Pad(6, 0) == "60.000000"
  {
    ZeroFraction();
    TwoDigitText(60);
    hide Pad, NatText;
    assert "60" + "." + "000000" == "60.000000";
  }

  lemma ThreeDigits(x: real)
    requires 0.0 <= x < 10.0 && Micros(x) == 10000000
    ensures SecondsText(x) == "010.000000"
  {
    hide NatText, Pad, Micros;
    ZeroFraction();
    assert "0" + ("10" + "." + "000000") == "010.000000";
  }

  lemma MicrosBounds(x: real)
    requires 0.0 <= x < 60.0
    ensures Micros(x) <= 60000000
    ensures x < 10.0 ==> Micros(x) <= 10000000
    ensures x >= 10.0 ==> Micros(x) >= 10000000
  {
    NearestIsUnique(Micros(x), x * 1000000.0);
  }

  lemma ZeroFraction()
    ensures Pad(6, 0) == "000000" && NatText(10) == "10" && NatText(60) == "60"
  {
  }

  lemma TwoDigitText(n: nat)
    requires n < 100
    ensures n < 10 ==> "0" + NatText(n) == Pad(2, n) && |NatText(n)| == 1
    ensures n >= 10 ==> NatText(n) == Pad(2, n)
  {
    SmallPowers();
    if n >= 10 {
      NatTextIsPad(2, n);
    }
  }

  /** Fixed-width numbers, each followed by a fixed separator. */
  datatype Fields = End | More(width: nat, value: nat, after: string, rest: Fields)

  function FieldsText(f: Fields): string {
    match f
    case End => []
    case More(width, value, after, rest) => Pad(width, value) + (after + FieldsText(rest))
  }

  predicate Fits(f: Fields) {
    f.More? ==> f.value < Pow10(f.width) && Fits(f.rest)
  }

  predicate SameLayout(a: Fields, b: Fields) {
    match (a, b)
    case (End, End) => true
    case (More(w, _, s, r), More(w', _, s', r')) => w == w' && s == s' && SameLayout(r, r')
    case _ => false
  }

  predicate FieldsLess(a: Fields, b: Fields) {
    a.More? && b.More? && (a.value < b.value || (a.value == b.value && FieldsLess(a.rest, b.rest)))
  }

  /** Over one layout, comparing texts is comparing the numbers field by field. */
  lemma {:induction false} FieldsOrder(a: Fields, b: Fields)
    requires Fits(a) && Fits(b) && SameLayout(a, b) && FieldsLess(a, b)
    ensures LexLess(FieldsText(a), FieldsText(b))
  {
    hide LexLess, Pad, Pow10;
    if a.value < b.value {
      LexPad(a.width, a.value, b.value);
      LexDecidedEarly(Pad(a.width, a.value), Pad(b.width, b.value),
                      a.after + FieldsText(a.rest), b.after + FieldsText(b.rest));
    } else {
      FieldsOrder(a.rest, b.rest);
      LexSamePrefix(a.after, FieldsText(a.rest), FieldsText(b.rest));
      LexSamePrefix(Pad(a.width, a.value), a.after + FieldsText(a.rest), b.after + FieldsText(b.rest));
    }
  }

  function MinuteFields(tm: Tm, us: nat, zone: int): Fields
    requires Valid(tm)
  {
    More(2, tm.min, ":", More(2, tm.sec, ".", More(6, us, ZoneText(zone), End)))
  }

  function StampFields(tm: Tm, us: nat, zone: int): Fields
    requires Valid(tm)
  {
    More(4, tm.year + 1900, "-", More(2, tm.mon + 1, "-", More(2, tm.mday, " ", More(2, tm.hour, ":",
      MinuteFields(tm, us, zone)))))
  }

  /** The fixed layout written out. */
  function PlainStamp(tm: Tm, us: nat, zone: int): (s: string)
    requires Valid(tm)
  {
    DateText(tm) + (Pad(2, tm.sec) + "." + Pad(6, us)) + ZoneText(zone)
  }

  lemma PlainStampIsFields(tm: Tm, us: nat, zone: int)
    requires Valid(tm)
    ensures PlainStamp(tm, us, zone) == FieldsText(StampFields(tm, us, zone))
  {
    var (y, mo, d) := (Pad(4, tm.year + 1900), Pad(2, tm.mon + 1), Pad(2, tm.mday));
    var (h, mi, se) := (Pad(2, tm.hour), Pad(2, tm.min), Pad(2, tm.sec));
    hide Pad, FieldsText, ZoneText, Valid, StampFields;
    NestedFields(tm, us, zone);
    Nested(y, mo, d, h, mi, se, Pad(6, us), ZoneText(zone));
  }

  lemma NestedFields(tm: Tm, us: nat, zone: int)
    requires Valid(tm)
    ensures FieldsText(StampFields(tm, us, zone)) ==
            Pad(4, tm.year + 1900) + ("-" + (Pad(2, tm.mon + 1) + ("-" + (Pad(2, tm.mday) + (" " + (Pad(2, tm.hour)
            + (":" + (Pad(2, tm.min) + (":" + (Pad(2, tm.sec) + ("." + (Pad(6, us) + (ZoneText(zone) + [])))))))))))))
  {
    hide Pad, ZoneText, Valid;
    var f := StampFields(tm, us, zone);
    assert FieldsText(f.rest.rest.rest.rest.rest.rest.rest) == [];
    assert FieldsText(f.rest.rest.rest.rest.rest.rest) == Pad(6, us) + (ZoneText(zone) + []);
    assert FieldsText(f.rest.rest.rest.rest.rest) == Pad(2, tm.sec) + ("." + FieldsText(f.rest.rest.rest.rest.rest.rest));
    assert FieldsText(f.rest.rest.rest.rest) == Pad(2, tm.min) + (":" + FieldsText(f.rest.rest.rest.rest.rest));
    assert FieldsText(f.rest.rest.rest) == Pad(2, tm.hour) + (":" + FieldsText(f.rest.rest.rest.rest));
    assert FieldsText(f.rest.rest) == Pad(2, tm.mday) + (" " + FieldsText(f.rest.rest.rest));
    assert FieldsText(f.rest) == Pad(2, tm.mon + 1) + ("-" + FieldsText(f.rest.rest));
  }

  lemma Nested(y: string, mo: string, d: string, h: string, mi: string, s: string, us: string, z: string)
    ensures y + "-" + mo + "-" + d + " " + h + ":" + mi + ":" + (s + "." + us) + z
         == y + ("-" + (mo + ("-" + (d + (" " + (h + (":" + (mi + (":" + (s + ("." + (us + (z + [])))))))))))))
  {
    TwoParts(y + "-" + mo + "-" + d + " ", h + ":" + mi + ":", (s + "." + us) + z);
    assert y + "-" + mo + "-" + d + " " + (h + (":" + (mi + (":" + (s + ("." + (us + (z + []))))))))
        == y + ("-" + (mo + ("-" + (d + (" " + (h + (":" + (mi + (":" + (s + ("." + (us + (z + [])))))))))))));
    assert h + ":" + mi + ":" + ((s + "." + us) + z) == h + (":" + (mi + (":" + (s + ("." + (us + (z + [])))))));
    assert y + "-" + mo + "-" + d + " " + h + ":" + mi + ":" + (s + "." + us) + z
        == y + "-" + mo + "-" + d + " " + (h + ":" + mi + ":") + ((s + "." + us) + z);
  }

  lemma TwoParts(a: string, b: string, c: string)
    ensures a + b + c == a + (b + c)
  {
  }

  /** Text in the fixed layout denotes the instant its fields spell. */
  lemma PlainStampReadsBack(fp: Fp, tol: real, tm: Tm, us: nat, zone: int)
    requires Sound(fp, tol) && Valid(tm) && tm.year <= 8099 && -6000 < zone < 6000 && us < 1000000
    ensures TimePointOf(fp, PlainStamp(tm, us, zone)) ==
            Some((Timegm(tm) - tm.sec - 60 * zone) * NS_PER_SECOND + 1000 * (1000000 * tm.sec + us))
  {
    hide *;
    PlainStampParts(tm, us, zone);
    SmallPowers();
    PadValue(2, tm.sec);
    PadValue(6, us);
    StampReadsBack(fp, tol, tm, Pad(2, tm.sec), Pad(6, us), 1000000 * tm.sec + us, zone);
  }

  /** Whole microseconds are printed in the fixed layout, digit for digit. */
  lemma WholeMicrosText(fp: Fp, ns: nat, zone: int)
    requires Sound(fp, 1.0) && KeepsTen(fp) && InRange(ns, zone) && ns % 1000 == 0
    ensures StampText(fp, ns, zone) == PlainStamp(LocalTm(ns, zone), ns / 1000 % 1000000, zone)
    ensures |StampText(fp, ns, zone)| == 32
  {
    hide *;
    SoundHere(fp, 1.0, ns, zone);
    WholeMicrosSeconds(fp, ns);
    LocalSeconds(ns, zone);
    StampTextParts(fp, ns, zone);
    PlainStampParts(LocalTm(ns, zone), ns / 1000 % 1000000, zone);
  }

  lemma LocalSeconds(ns: nat, zone: int)
    requires InRange(ns, zone)
    ensures Valid(LocalTm(ns, zone)) && LocalTm(ns, zone).sec == ns / NS_PER_SECOND % 60
  {
    hide LocalTm;
  }

  lemma PlainStampParts(tm: Tm, us: nat, zone: int)
    requires Valid(tm)
    ensures 0 <= tm.sec < 60
    ensures PlainStamp(tm, us, zone) == DateText(tm) + (Pad(2, tm.sec) + "." + Pad(6, us)) + ZoneText(zone)
    ensures |PlainStamp(tm, us, zone)| == 32
  {
    hide Pad;
  }

  lemma WholeMicrosSeconds(fp: Fp, ns: nat)
    requires Sound(fp, 1.0) && KeepsTen(fp) && ns % 1000 == 0
    ensures var x := fp.seconds(IntoMinute(ns));
            x >= 0.0 && SecondsText(x) == Pad(2, ns / NS_PER_SECOND % 60) + "." + Pad(6, ns / 1000 % 1000000)
  {
    var x := fp.seconds(IntoMinute(ns));
    var k := IntoMinute(ns) / 1000;
    WholeMicrosCount(ns);
    ExactMicros(x, k);
    hide *;
    PlainSeconds(x, k);
  }

  lemma ExactMicros(x: real, k: nat)
    requires 0.0 <= x && -1.0 < x * 1000000000.0 - (1000 * k) as real < 1.0
    ensures Micros(x) == k
  {
    assert x * 1000000000.0 == 1000.0 * (x * 1000000.0);
    AbsorbsError(k, x * 1000000.0);
  }

  lemma PlainSeconds(x: real, k: nat)
    requires 0.0 <= x && k < 60000000 && Micros(x) == k && (x < 10.0 <==> k < 10000000)
    ensures SecondsText(x) == Pad(2, k / 1000000) + "." + Pad(6, k % 1000000)
  {
    hide NatText, Pad, Micros;
    TwoDigitText(k / 1000000);
  }

  lemma WholeMicrosCount(ns: nat)
    requires ns % 1000 == 0
    ensures var k := IntoMinute(ns) / 1000;
            && IntoMinute(ns) == 1000 * k && 0 <= k < 60000000
            && k / 1000000 == ns / NS_PER_SECOND % 60 && k % 1000000 == ns / 1000 % 1000000
  {
    var us := ns / 1000;
    assert ns == 1000 * us;
    assert ns / NS_PER_SECOND == us / 1000000;
    assert ns % NS_PER_SECOND == 1000 * (us % 1000000);
  }

  /** For whole microseconds in one zone, the order of the texts is the order of the instants. */
  lemma StampOrder(fp: Fp, ns: nat, other: nat, zone: int)
    requires Sound(fp, 1.0) && KeepsTen(fp) && InRange(ns, zone) && InRange(other, zone)
    requires ns % 1000 == 0 && other % 1000 == 0
    ensures |StampText(fp, ns, zone)| == |StampText(fp, other, zone)| == 32
    ensures LexLess(StampText(fp, ns, zone), StampText(fp, other, zone)) <==> ns < other
  {
    hide *;
    SoundHere(fp, 1.0, ns, zone);
    SoundHere(fp, 1.0, other, zone);
    WholeMicrosText(fp, ns, zone);
    WholeMicrosText(fp, other, zone);
    if ns < other {
      EarlierStampLess(ns, other, zone);
    } else if other < ns {
      EarlierStampLess(other, ns, zone);
      LexAsymmetric(StampText(fp, other, zone), StampText(fp, ns, zone));
    } else if LexLess(StampText(fp, ns, zone), StampText(fp, other, zone)) {
      LexAsymmetric(StampText(fp, ns, zone), StampText(fp, other, zone));
    }
  }

  lemma EarlierStampLess(ns: nat, later: nat, zone: int)
    requires InRange(ns, zone) && InRange(later, zone) && ns % 1000 == 0 && later % 1000 == 0 && ns < later
    ensures LexLess(PlainStamp(LocalTm(ns, zone), ns / 1000 % 1000000, zone),
                    PlainStamp(LocalTm(later, zone), later / 1000 % 1000000, zone))
  {
    var (tm, us) := (LocalTm(ns, zone), ns / 1000 % 1000000);
    var (tm', us') := (LocalTm(later, zone), later / 1000 % 1000000);
    EarlierFields(ns, later, zone);
    hide *;
    PlainStampIsFields(tm, us, zone);
    PlainStampIsFields(tm', us', zone);
    FieldsOrder(StampFields(tm, us, zone), StampFields(tm', us', zone));
  }

  lemma EarlierFields(ns: nat, later: nat, zone: int)
    requires InRange(ns, zone) && InRange(later, zone) && ns % 1000 == 0 && later % 1000 == 0 && ns < later
    ensures var (a, b) := (StampFields(LocalTm(ns, zone), ns / 1000 % 1000000, zone),
                           StampFields(LocalTm(later, zone), later / 1000 % 1000000, zone));
            Fits(a) && Fits(b) && SameLayout(a, b) && FieldsLess(a, b)
  {
    hide *;
    var (tm, us) := (LocalTm(ns, zone), ns / 1000 % 1000000);
    var (tm', us') := (LocalTm(later, zone), later / 1000 % 1000000);
    LocalSeconds(ns, zone);
    LocalSeconds(later, zone);
    LocalOrder(ns, later, zone);
    SameSecond(ns, later);
    EarlierIsFieldsLess(tm, us, tm', us', zone);
  }

  lemma LocalOrder(ns: nat, later: nat, zone: int)
    requires InRange(ns, zone) && InRange(later, zone)
    ensures ns / NS_PER_SECOND < later / NS_PER_SECOND ==> Earlier(LocalTm(ns, zone), LocalTm(later, zone))
    ensures ns / NS_PER_SECOND == later / NS_PER_SECOND ==> LocalTm(ns, zone) == LocalTm(later, zone)
  {
    hide Gmtime, Earlier, Timegm, Valid;
    if ns / NS_PER_SECOND < later / NS_PER_SECOND {
      GmtimeMonotone(ns / NS_PER_SECOND + 60 * zone, later / NS_PER_SECOND + 60 * zone);
    }
  }

  lemma SameSecond(ns: nat, later: nat)
    requires ns < later && ns % 1000 == 0 && later % 1000 == 0
    ensures || ns / NS_PER_SECOND < later / NS_PER_SECOND
            || (ns / NS_PER_SECOND == later / NS_PER_SECOND && ns / 1000 % 1000000 < later / 1000 % 1000000)
  {
    assert ns / 1000 / 1000000 == ns / NS_PER_SECOND && later / 1000 / 1000000 == later / NS_PER_SECOND;
  }

  lemma EarlierIsFieldsLess(tm: Tm, us: nat, tm': Tm, us': nat, zone: int)
    requires Valid(tm) && Valid(tm') && tm.year <= 8099 && tm'.year <= 8099 && us < 1000000 && us' < 1000000
    requires Earlier(tm, tm') || (tm == tm' && us < us')
    ensures var (a, b) := (StampFields(tm, us, zone), StampFields(tm', us', zone));
            Fits(a) && Fits(b) && SameLayout(a, b) && FieldsLess(a, b)
  {
    hide Pad, ZoneText;
    SmallPowers();
    var (a, b) := (StampFields(tm, us, zone), StampFields(tm', us', zone));
    MinuteFieldsLess(tm, us, tm', us', zone);
    hide MinuteFields;
    assert Fits(a.rest.rest.rest) && SameLayout(a.rest.rest.rest, b.rest.rest.rest) && Fits(b.rest.rest.rest);
    assert Fits(a.rest.rest) && SameLayout(a.rest.rest, b.rest.rest) && Fits(b.rest.rest);
    assert Fits(a.rest) && SameLayout(a.rest, b.rest) && Fits(b.rest);
    var (x, y) := (a.rest.rest.rest, b.rest.rest.rest);
    assert FieldsLess(x, y) <==> tm.hour < tm'.hour || (tm.hour == tm'.hour && FieldsLess(x.rest, y.rest));
    assert FieldsLess(a.rest.rest, b.rest.rest) <==> tm.mday < tm'.mday || (tm.mday == tm'.mday && FieldsLess(x, y));
  }

  lemma MinuteFieldsLess(tm: Tm, us: nat, tm': Tm, us': nat, zone: int)
    requires Valid(tm) && Valid(tm') && us < 1000000 && us' < 1000000
    ensures var (a, b) := (MinuteFields(tm, us, zone), MinuteFields(tm', us', zone));
            && Fits(a) && Fits(b) && SameLayout(a, b)
            && (FieldsLess(a, b) <==> tm.min < tm'.min || (tm.min == tm'.min && (tm.sec < tm'.sec || (tm.sec == tm'.sec && us < us'))))
  {
    hide Pad, ZoneText;
    SmallPowers();
    var (a, b) := (MinuteFields(tm, us, zone), MinuteFields(tm', us', zone));
    assert Fits(a.rest.rest) && Fits(b.rest.rest) && SameLayout(a.rest.rest, b.rest.rest);
    assert Fits(a.rest) && Fits(b.rest) && SameLayout(a.rest, b.rest);
    assert FieldsLess(a.rest.rest, b.rest.rest) <==> us < us';
  }
}
