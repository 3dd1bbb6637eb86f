/** The timestamps that the server's and the client's reader accept, as a grammar, and what each of them denotes. */
module StampGrammar {
  import opened Wrappers
  import opened Decimal
  import opened Calendar
  import opened Rounding
  import opened Timestamp
  import opened TimestampLaws
  import opened ClientTime

  /** The pieces of a text, in order; the separators between them are fixed. */
  datatype Spelling = Spelling(
    lead: string, year: string, month: string, day: string, hour: string, minute: string,
    gap: string, whole: string, point: bool, fraction: string,
    sign: char, zoneHours: string, zoneMinutes: string, rest: string)

  predicate AllSpaces(s: string) {
    forall i :: 0 <= i < |s| ==> IsSpace(s[i])
  }

  predicate DateOk(p: Spelling) {
    && |p.year| == 4 && |p.month| == |p.day| == |p.hour| == |p.minute| == 2
    && AllDigits(p.year) && AllDigits(p.month) && AllDigits(p.day) && AllDigits(p.hour) && AllDigits(p.minute)
    && 1 <= Value(p.month) <= 12 && 1 <= Value(p.day) <= 31 && Value(p.hour) < 24 && Value(p.minute) < 60
  }

  predicate NumberOk(p: Spelling) {
    && AllDigits(p.whole) && AllDigits(p.fraction)
    && (p.whole != [] || p.fraction != []) && (!p.point ==> p.fraction == [])
  }

  predicate ZoneOk(p: Spelling) {
    && (p.sign == '+' || p.sign == '-') && |p.zoneHours| == |p.zoneMinutes| == 2
    && AllDigits(p.zoneHours) && AllDigits(p.zoneMinutes)
  }

  predicate WellFormed(p: Spelling) {
    DateOk(p) && NumberOk(p) && ZoneOk(p) && AllSpaces(p.lead) && AllSpaces(p.gap)
  }

  function DatePart(p: Spelling): string {
    p.year + "-" + p.month + "-" + p.day + " " + p.hour + ":" + p.minute + ":"
  }

  function NumberPart(p: Spelling): string {
    p.whole + (if p.point then "." else "") + p.fraction
  }

  function ZonePart(p: Spelling): string {
    " " + [p.sign] + p.zoneHours + p.zoneMinutes
  }

  function Spelled(p: Spelling): string {
    p.lead + DatePart(p) + p.gap + NumberPart(p) + ZonePart(p) + p.rest
  }

  function MinuteOf(p: Spelling): Tm
    requires DateOk(p)
  {
    Tm(Value(p.year) - 1900, Value(p.month) - 1, Value(p.day), Value(p.hour), Value(p.minute), 0)
  }

  function Seconds(p: Spelling): (v: real)
    requires NumberOk(p)
  {
    Value(p.whole + p.fraction) as real / Pow10(|p.fraction|) as real
  }

  function Zone(p: Spelling): int
    requires ZoneOk(p)
  {
    (if p.sign == '-' then -1 else 1) * (60 * Value(p.zoneHours) + Value(p.zoneMinutes))
  }

  function Denoted(fp: Fp, p: Spelling): int
    requires WellFormed(p)
  {
    (Timegm(MinuteOf(p)) - 60 * Zone(p)) * NS_PER_SECOND + 1000 * Rounded(fp.strtod(Seconds(p)) * 1000000.0)
  }

  // ----- every spelling is read

  lemma {:induction false} SkipSpaceIs(s: string, i: nat, j: nat)
    requires i <= j <= |s| && AllSpaces(s[i..j]) && (j < |s| ==> !IsSpace(s[j]))
    ensures SkipSpace(s, i) == j
    decreases j - i
  {
    if i < j {
      assert s[i] == s[i..j][0];
      assert s[i + 1..j] == s[i..j][1..];
      SkipSpaceIs(s, i + 1, j);
    }
  }

  lemma Slices(a: string, b: string, c: string, d: string, e: string, f: string)
    ensures var s := a + b + c + d + e + f;
            var (i, j) := (|a|, |a| + |b|);
            var k := j + |c|;
            var l := k + |d|;
            && |s| == l + |e| + |f|
            && s[0..i] == a && s[i..j] == b && s[j..k] == c && s[k..l] == d && s[l..l + |e|] == e && s[l + |e|..] == f
  {
  }

  lemma Within(s: string, i: nat, j: nat, x: nat, y: nat)
    requires x <= y <= j - i && j <= |s|
    ensures s[i..j][x..y] == s[i + x..i + y]
  {
    var t := s[i..j];
    forall q | 0 <= q < y - x ensures t[x..y][q] == s[i + x..i + y][q] {
      assert t[x + q] == s[i + (x + q)];
    }
  }

  lemma DateRead(s: string, i: nat, p: Spelling)
    requires DateOk(p) && i + 17 <= |s| && s[i..i + 17] == DatePart(p)
    ensures !IsSpace(s[i]) && DateFields(s, i) == Some(MinuteOf(p))
  {
    hide Value;
    var t := s[i..i + 17];
    DatePositions(p.year, p.month, p.day, p.hour, p.minute, "");
    assert DatePart(p) + "" == DatePart(p);
    Within(s, i, i + 17, 0, 4);
    Within(s, i, i + 17, 5, 7);
    Within(s, i, i + 17, 8, 10);
    Within(s, i, i + 17, 11, 13);
    Within(s, i, i + 17, 14, 16);
    assert s[i + 4] == t[4] && s[i + 7] == t[7] && s[i + 10] == t[10] && s[i + 13] == t[13] && s[i + 16] == t[16];
    assert IsDigit(p.year[0]) && s[i] == t[0] == p.year[0];
  }

  /** Where the reader finds the digits of a number. */
  lemma NumberRuns(s: string, a: nat, k: nat, p: Spelling)
    requires NumberOk(p) && a <= k < |s| && s[a..k] == NumberPart(p) && s[k] == ' '
    ensures var j := a + |p.whole|;
            && j <= k && RunEnd(s, a) == j && s[a..j] == p.whole && !IsSpace(s[a])
            && (p.point <==> s[j] == '.') && (!p.point ==> j == k)
            && (p.point ==> j < k && RunEnd(s, j + 1) == k && s[j + 1..k] == p.fraction)
  {
    hide Value, Pow10, RunEnd;
    var (n, j) := (NumberPart(p), a + |p.whole|);
    assert s[a] == n[0];
    Within(s, a, k, 0, |p.whole|);
    assert n[0..|p.whole|] == p.whole;
    if p.point {
      assert s[j] == n[|p.whole|] == '.';
      Within(s, a, k, |p.whole| + 1, k - a);
      assert n[|p.whole| + 1..] == p.fraction;
      RunEndIs(s, j + 1, k);
    }
    RunEndIs(s, a, j);
  }

  lemma NumberRead(s: string, g: nat, a: nat, k: nat, p: Spelling)
    requires NumberOk(p) && g <= a <= k < |s| && AllSpaces(s[g..a]) && s[a..k] == NumberPart(p) && s[k] == ' '
    ensures DecimalAt(s, g) == Some((Seconds(p), k))
  {
    hide Value, Pow10, RunEnd, SkipSpace, IsSpace, NumberPart;
    NumberRuns(s, a, k, p);
    SkipSpaceIs(s, g, a);
    NoFraction(p.whole);
    assert p.whole + [] == p.whole;
  }

  lemma NoFraction(d: string)
    requires AllDigits(d)
    ensures Value(d) as real / Pow10(0) as real == Value(d) as real
  {
  }

  lemma ZoneRead(s: string, k: nat, p: Spelling)
    requires ZoneOk(p) && k + 6 <= |s| && s[k..k + 6] == ZonePart(p)
    ensures s[k] == ' ' && ZoneAt(s, k) && ZoneMinutes(s, k) == Zone(p)
  {
    hide Value;
    var t := s[k..k + 6];
    assert s[k] == t[0] && s[k + 1] == t[1];
    Within(s, k, k + 6, 2, 4);
    Within(s, k, k + 6, 4, 6);
    assert t[2..4] == p.zoneHours && t[4..6] == p.zoneMinutes;
  }

  lemma PartLengths(p: Spelling)
    requires WellFormed(p)
    ensures |DatePart(p)| == 17 && |ZonePart(p)| == 6 && NumberPart(p) != []
  {
  }

  lemma FromParts(fp: Fp, s: string, i: nat, k: nat, p: Spelling)
    requires WellFormed(p) && i + 17 <= |s| && SkipSpace(s, 0) == i && DateFields(s, i) == Some(MinuteOf(p))
    requires DecimalAt(s, i + 17) == Some((Seconds(p), k)) && ZoneAt(s, k) && ZoneMinutes(s, k) == Zone(p)
    ensures TimePointOf(fp, s) == Some(Denoted(fp, p))
  {
    hide DateFields, DecimalAt, ZoneAt, ZoneMinutes, Timegm, SkipSpace, Rounded, Value, Seconds, Zone, WellFormed;
  }

  /** Every text of the grammar is read, as the instant it denotes. */
  lemma SpelledIsRead(fp: Fp, p: Spelling)
    requires WellFormed(p)
    ensures TimePointOf(fp, Spelled(p)) == Some(Denoted(fp, p))
  {
    hide TimePointOf, DatePart, NumberPart, ZonePart, DateOk, NumberOk, ZoneOk, DecimalAt, DateFields, ZoneAt, ZoneMinutes,
         SkipSpace, Denoted, MinuteOf, Seconds, Zone, IsSpace;
    var s := Spelled(p);
    var i := |p.lead|;
    var a := i + 17 + |p.gap|;
    var k := a + |NumberPart(p)|;
    PartLengths(p);
    Slices(p.lead, DatePart(p), p.gap, NumberPart(p), ZonePart(p), p.rest);
    DateRead(s, i, p);
    SkipSpaceIs(s, 0, i);
    ZoneRead(s, k, p);
    NumberRead(s, i + 17, a, k, p);
    FromParts(fp, s, i, k, p);
  }

  // ----- and nothing else

  lemma {:induction false} SkippedSpaces(s: string, i: nat)
    requires i <= |s|
    ensures AllSpaces(s[i..SkipSpace(s, i)])
    decreases |s| - i
  {
    if i < |s| && IsSpace(s[i]) {
      SkippedSpaces(s, i + 1);
      assert s[i..SkipSpace(s, i)] == [s[i]] + s[i + 1..SkipSpace(s, i)];
    }
  }

  lemma DateSpelled(s: string, i: nat, p: Spelling)
    requires i <= |s| && DateFields(s, i).Some?
    requires i + 17 <= |s| && p.year == s[i..i + 4] && p.month == s[i + 5..i + 7] && p.day == s[i + 8..i + 10]
    requires p.hour == s[i + 11..i + 13] && p.minute == s[i + 14..i + 16]
    ensures DateOk(p) && DatePart(p) == s[i..i + 17]
  {
    hide Value;
    var t := s[i..i + 17];
    assert t[4] == '-' && t[7] == '-' && t[10] == ' ' && t[13] == ':' && t[16] == ':';
    Within(s, i, i + 17, 0, 4);
    Within(s, i, i + 17, 5, 7);
    Within(s, i, i + 17, 8, 10);
    Within(s, i, i + 17, 11, 13);
    Within(s, i, i + 17, 14, 16);
    DateJoined(t);
  }

  lemma DateJoined(t: string)
    requires |t| == 17 && t[4] == '-' && t[7] == '-' && t[10] == ' ' && t[13] == ':' && t[16] == ':'
    ensures t == t[0..4] + "-" + t[5..7] + "-" + t[8..10] + " " + t[11..13] + ":" + t[14..16] + ":"
  {
  }

  lemma NumberSpelled(s: string, g: nat, p: Spelling)
    requires g <= |s| && DecimalAt(s, g).Some?
    requires var a := SkipSpace(s, g);
             var (j, k) := (RunEnd(s, a), DecimalAt(s, g).value.1);
             && p.whole == s[a..j] && p.point == (j < |s| && s[j] == '.')
             && p.fraction == if p.point && j < k then s[j + 1..k] else []
    ensures var a := SkipSpace(s, g);
            var k := DecimalAt(s, g).value.1;
            NumberOk(p) && a <= k && NumberPart(p) == s[a..k]
  {
    hide Value, Pow10, SkipSpace, RunEnd;
    var a := SkipSpace(s, g);
    var (j, k) := (RunEnd(s, a), DecimalAt(s, g).value.1);
    if p.point {
      assert k == RunEnd(s, j + 1);
      assert s[a..k] == s[a..j] + "." + s[j + 1..k];
    } else {
      assert NumberPart(p) == p.whole;
    }
  }

  lemma ZoneSpelled(s: string, k: nat, p: Spelling)
    requires ZoneAt(s, k) && p.sign == s[k + 1] && p.zoneHours == s[k + 2..k + 4] && p.zoneMinutes == s[k + 4..k + 6]
    ensures ZoneOk(p) && ZonePart(p) == s[k..k + 6]
  {
  }

  /** Whatever is read is a text of the grammar; everything else is refused. */
  lemma ReadIsSpelled(fp: Fp, s: string) returns (p: Spelling)
    requires TimePointOf(fp, s).Some?
    ensures WellFormed(p) && s == Spelled(p)
  {
    hide DateFields, DecimalAt, ZoneAt, ZoneMinutes, Timegm, SkipSpace, Rounded, RunEnd, DateOk, NumberOk, ZoneOk,
         DatePart, NumberPart, ZonePart, AllDigits, AllSpaces, IsDigit;
    var i := SkipSpace(s, 0);
    var a := SkipSpace(s, i + 17);
    var (j, k) := (RunEnd(s, a), DecimalAt(s, i + 17).value.1);
    ZoneInside(s, k);
    var point := j < |s| && s[j] == '.';
    p := Spelling(s[0..i], s[i..i + 4], s[i + 5..i + 7], s[i + 8..i + 10], s[i + 11..i + 13], s[i + 14..i + 16],
                  s[i + 17..a], s[a..j], point, if point && j < k then s[j + 1..k] else [],
                  s[k + 1], s[k + 2..k + 4], s[k + 4..k + 6], s[k + 6..]);
    SkippedSpaces(s, 0);
    SkippedSpaces(s, i + 17);
    DateSpelled(s, i, p);
    NumberSpelled(s, i + 17, p);
    ZoneSpelled(s, k, p);
    Joined(s, i, i + 17, a, k, k + 6);
  }

  lemma ZoneInside(s: string, k: nat)
    requires ZoneAt(s, k)
    ensures k + 6 <= |s|
  {
  }

  lemma Joined(s: string, i: nat, j: nat, a: nat, k: nat, l: nat)
    requires i <= j <= a <= k <= l <= |s|
    ensures s == s[0..i] + s[i..j] + s[j..a] + s[a..k] + s[k..l] + s[l..]
  {
  }

  /** A text is accepted if and only if it can be spelled, and the instant does not depend on how. */
  lemma AcceptedExactly(fp: Fp, s: string)
    ensures TimePointOf(fp, s).Some? <==> exists p :: WellFormed(p) && Spelled(p) == s
    ensures forall p :: WellFormed(p) && Spelled(p) == s ==> TimePointOf(fp, s) == Some(Denoted(fp, p))
  {
    hide TimePointOf, Spelled, WellFormed, Denoted;
    if TimePointOf(fp, s).Some? {
      var p := ReadIsSpelled(fp, s);
    }
    forall p | WellFormed(p) && Spelled(p) == s ensures TimePointOf(fp, s) == Some(Denoted(fp, p)) {
      SpelledIsRead(fp, p);
    }
  }

  // ----- the client's reader

  /** No blanks and nothing left over, two digits of seconds, six of fraction, and a real day, second and offset. */
  predicate ClientForm(p: Spelling)
    requires WellFormed(p)
  {
    && p.lead == p.gap == p.rest == [] && |p.whole| == 2 && p.point && |p.fraction| == 6
    && MinuteOf(p).mday <= DaysInMonth(IsLeap(MinuteOf(p).year), MinuteOf(p).mon)
    && Value(p.whole) < 60 && Value(p.zoneHours) < 24 && Value(p.zoneMinutes) < 60
  }

  function ClientDenoted(p: Spelling): int
    requires WellFormed(p)
  {
    (Timegm(MinuteOf(p)) + Value(p.whole) - 60 * Zone(p)) * 1000 + Value(p.fraction) / 1000
  }

  lemma ClientSlices(p: Spelling)
    requires WellFormed(p) && ClientForm(p)
    ensures var s := Spelled(p);
            && |s| == 32 && s[0..17] == DatePart(p) && s[17..19] == p.whole && s[19] == '.' && s[20..26] == p.fraction
            && s[26..32] == ZonePart(p)
  {
    hide DatePart, Value, Timegm, IsLeap, DaysInMonth, MinuteOf, DateOk;
    PartLengths(p);
    var n := NumberPart(p);
    assert n[0..2] == p.whole && n[2] == '.' && n[3..9] == p.fraction;
    Slices([], DatePart(p), [], n, ZonePart(p), []);
    var s := Spelled(p);
    Within(s, 17, 26, 0, 2);
    Within(s, 17, 26, 3, 9);
    assert s[17..26][2] == s[19];
  }

  lemma ClientReads(s: string, p: Spelling)
    requires WellFormed(p) && ClientForm(p) && |s| == 32 && DateFields(s, 0) == Some(MinuteOf(p))
    requires s[17..19] == p.whole && s[19] == '.' && s[20..26] == p.fraction
    requires ZoneAt(s, 26) && ZoneMinutes(s, 26) == Zone(p) && s[28..30] == p.zoneHours && s[30..32] == p.zoneMinutes
    ensures ClientTimeOf(s) == Some(ClientDenoted(p))
  {
    hide Value, Timegm, IsLeap, DaysInMonth, DateFields, ZoneMinutes, Zone;
  }

  lemma SpelledIsReadByClient(p: Spelling)
    requires WellFormed(p) && ClientForm(p)
    ensures ClientTimeOf(Spelled(p)) == Some(ClientDenoted(p))
  {
    hide *;
    ClientSlices(p);
    WellFormedParts(p);
    var s := Spelled(p);
    DateRead(s, 0, p);
    ZoneRead(s, 26, p);
    ZoneDigits(s, 26, p);
    ClientReads(s, p);
  }

  lemma WellFormedParts(p: Spelling)
    requires WellFormed(p)
    ensures DateOk(p) && NumberOk(p) && ZoneOk(p)
  {
  }

  lemma ZoneDigits(s: string, k: nat, p: Spelling)
    requires ZoneOk(p) && k + 6 <= |s| && s[k..k + 6] == ZonePart(p)
    ensures s[k + 2..k + 4] == p.zoneHours && s[k + 4..k + 6] == p.zoneMinutes
  {
    Within(s, k, k + 6, 2, 4);
    Within(s, k, k + 6, 4, 6);
    var t := ZonePart(p);
    assert t[2..4] == p.zoneHours && t[4..6] == p.zoneMinutes;
  }

  lemma ClientReadIsSpelled(s: string) returns (p: Spelling)
    requires ClientTimeOf(s).Some?
    ensures WellFormed(p) && ClientForm(p) && s == Spelled(p)
  {
    hide DateFields, ZoneAt, ZoneMinutes, Timegm, DateOk, ZoneOk, DatePart, ZonePart, Value, IsLeap, DaysInMonth;
    p := Spelling([], s[0..4], s[5..7], s[8..10], s[11..13], s[14..16],
                  [], s[17..19], true, s[20..26], s[27], s[28..30], s[30..32], []);
    DateSpelled(s, 0, p);
    ZoneSpelled(s, 26, p);
    DateRead(s, 0, p);
    assert s[17..26] == s[17..19] + "." + s[20..26];
    Joined(s, 0, 17, 17, 26, 32);
  }

  /** The client accepts exactly the texts that have a spelling of its form, all with the meaning of that spelling. */
  lemma ClientAcceptsExactly(s: string)
    ensures ClientTimeOf(s).Some? <==> exists p :: WellFormed(p) && ClientForm(p) && Spelled(p) == s
    ensures forall p :: WellFormed(p) && ClientForm(p) && Spelled(p) == s ==> ClientTimeOf(s) == Some(ClientDenoted(p))
  {
    hide ClientTimeOf, Spelled, WellFormed, ClientForm, ClientDenoted;
    if ClientTimeOf(s).Some? {
      var p := ClientReadIsSpelled(s);
    }
    forall p | WellFormed(p) && ClientForm(p) && Spelled(p) == s ensures ClientTimeOf(s) == Some(ClientDenoted(p)) {
      SpelledIsReadByClient(p);
    }
  }
}
