/** Durations as text: a count, a space, and a unit by name or as `[N/D]seconds`. */
module DurationText {
  import opened Wrappers
  import opened Decimal
  import opened DurationArithmetic

  datatype Unit = Unit(ratio: Ratio, long: string, short: string)

  /** The named units in the order the reader tries them. */
  const UNITS: seq<Unit> := [
    Unit(Ratio(1, 1000000000000000000), "attoseconds", "as"),
    Unit(Ratio(1, 1000000000000000), "femtoseconds", "fs"),
    Unit(Ratio(1, 1000000000000), "picoseconds", "ps"),
    Unit(Ratio(1, 1000000000), "nanoseconds", "ns"),
    Unit(Ratio(1, 1000000), "microseconds", "\U{C2}\U{B5}s"),
    Unit(Ratio(1, 1000), "milliseconds", "ms"),
    Unit(Ratio(1, 100), "centiseconds", "cs"),
    Unit(Ratio(1, 10), "deciseconds", "ds"),
    Unit(Ratio(10, 1), "decaseconds", "das"),
    Unit(Ratio(100, 1), "hectoseconds", "hs"),
    Unit(Ratio(1000, 1), "kiloseconds", "ks"),
    Unit(Ratio(1000000, 1), "megaseconds", "Ms"),
    Unit(Ratio(1000000000, 1), "gigaseconds", "Gs"),
    Unit(Ratio(1000000000000, 1), "teraseconds", "Ts"),
    Unit(Ratio(1000000000000000, 1), "petaseconds", "Ps"),
    Unit(Ratio(1000000000000000000, 1), "exaseconds", "Es"),
    Unit(Ratio(1, 1), "seconds", "s"),
    Unit(Ratio(60, 1), "minutes", "m"),
    Unit(Ratio(3600, 1), "hours", "h")]

  /** Long and short name of each unit in turn. */
  function Keywords(units: seq<Unit>): (keys: seq<string>)
    ensures |keys| == 2 * |units|
    ensures forall i :: 0 <= i < |units| ==> keys[2 * i] == units[i].long && keys[2 * i + 1] == units[i].short
  {
    if units == [] then [] else
    var keys := [units[0].long, units[0].short] + Keywords(units[1..]);
    assert forall i :: 1 <= i < |units| ==> keys[2 * i] == Keywords(units[1..])[2 * (i - 1)];
    assert forall i :: 1 <= i < |units| ==> keys[2 * i + 1] == Keywords(units[1..])[2 * (i - 1) + 1];
    keys
  }

  /** Position of the period among named units, or the number of units if it has no name. */
  function FindUnit(units: seq<Unit>, period: Ratio): (i: nat)
    ensures i <= |units| && (i < |units| ==> units[i].ratio == period)
  {
    if units == [] then 0
    else if units[0].ratio == period then 0
    else 1 + FindUnit(units[1..], period)
  }

  function UnitText(isLong: bool, period: Ratio): string {
    var i := FindUnit(UNITS, period);
    if i < |UNITS| then (if isLong then UNITS[i].long else UNITS[i].short)
    else "[" + NatText(period.num) + "/" + NatText(period.den) + "]" + (if isLong then "seconds" else "s")
  }

  function PrintDuration(isLong: bool, count: nat, period: Ratio): string {
    NatText(count) + " " + UnitText(isLong, period)
  }

  // ----- reading

  /** How far the text from `i` keeps following some keyword, given that the first `k` characters do. */
  function Munch(s: string, i: nat, keys: seq<string>, k: nat): (m: nat)
    requires i + k <= |s|
    ensures k <= m && i + m <= |s|
    decreases |s| - i - k
  {
    if i + k < |s| && exists key :: key in keys && |key| > k && key[..k + 1] == s[i..i + k + 1]
    then Munch(s, i, keys, k + 1)
    else k
  }

  function KeywordIndex(keys: seq<string>, key: string): (i: nat)
    ensures i <= |keys| && (i < |keys| ==> keys[i] == key)
  {
    if keys == [] then 0 else if keys[0] == key then 0 else 1 + KeywordIndex(keys[1..], key)
  }

  /** Keyword scanning: take characters while they may still spell a keyword; all of one must be taken. */
  function ScanKeyword(s: string, i: nat, keys: seq<string>): nat
    requires i <= |s|
  {
    KeywordIndex(keys, s[i..i + Munch(s, i, keys, 0)])
  }

  /** An unsigned number at or after `i`, if it does not exceed `max`: its value and where it ends. */
  function NumberAt(s: string, i: nat, max: nat): (r: Option<(nat, nat)>)
    requires i <= |s|
    ensures r.Some? ==> r.value.0 <= max && r.value.1 <= |s|
  {
    var a := SkipSpace(s, i);
    var j := RunEnd(s, a);
    if j > a && Value(s[a..j]) <= max then Some((Value(s[a..j]), j)) else None
  }

  const SECONDS_KEYS := ["seconds", "s"]

  /** `N/D]` and the name of the second, after the opening bracket. */
  function BracketAt(s: string, i: nat): Option<Ratio>
    requires i <= |s|
  {
    var n := NumberAt(s, i, U64_MAX);
    if n.None? then None else
    var slash := SkipSpace(s, n.value.1);
    if slash >= |s| || s[slash] != '/' then None else
    var d := NumberAt(s, slash + 1, U64_MAX);
    if d.None? || d.value.1 >= |s| || s[d.value.1] != ']' then None
    else if ScanKeyword(s, d.value.1 + 1, SECONDS_KEYS) / 2 == 0 then Some(Ratio(n.value.0, d.value.0))
    else None
  }

  function UnitAt(s: string, i: nat): Option<Ratio>
    requires i < |s|
  {
    if s[i] == '[' then BracketAt(s, i + 1)
    else
      var k := ScanKeyword(s, i, Keywords(UNITS)) / 2;
      if k < |UNITS| then Some(UNITS[k].ratio) else None
  }

  /** The count and the unit that the text names; the count must be followed by a space and a unit. */
  function CountAndUnit(s: string, countMax: nat): Option<(nat, Ratio)> {
    var r := NumberAt(s, 0, countMax);
    if r.None? then None else
    var j := r.value.1;
    if j + 1 >= |s| || s[j] != ' ' then None else
    var unit := UnitAt(s, j + 1);
    if unit.None? then None else Some((r.value.0, unit.value))
  }

  /** The duration reader; `countMax` is the limit of the intermediate integer type. */
  method ReadDuration(s: string, period: Ratio, countMax: nat, repMax: nat) returns (o: Outcome)
    requires countMax <= U64_MAX && repMax <= U64_MAX && IsPeriod(period)
    ensures var p := CountAndUnit(s, countMax);
            && (p.None? ==> o == Failed)
            && (p.Some? ==>
                  && p.value.1.num <= U64_MAX && p.value.1.den <= U64_MAX
                  && o == Converted(p.value.0, p.value.1, period, repMax))
  {
    hide NumberAt, UnitAt, Converted;
    var r := NumberAt(s, 0, countMax);
    if r.None? {
      return Failed;
    }
    var i := r.value.1;
    if i == |s| || s[i] != ' ' {
      return Failed;
    }
    i := i + 1;
    if i == |s| {
      return Failed;
    }
    var unit := UnitAt(s, i);
    if unit.None? {
      return Failed;
    }
    UnitFits(s, i);
    o := Rescale(r.value.0, unit.value, period, repMax);
  }

  lemma UnitFits(s: string, i: nat)
    requires i < |s|
    ensures UnitAt(s, i).Some? ==> UnitAt(s, i).value.num <= U64_MAX && UnitAt(s, i).value.den <= U64_MAX
  {
    hide ScanKeyword, NumberAt, Keywords;
  }

  // ----- reading back what was printed

  predicate Distinct(keys: seq<string>) {
    forall i, j :: 0 <= i < j < |keys| ==> keys[i] != keys[j]
  }

  lemma {:induction false} KeywordIndexDistinct(keys: seq<string>, j: nat)
    requires Distinct(keys) && j < |keys|
    ensures KeywordIndex(keys, keys[j]) == j
  {
    if j > 0 {
      assert keys[1..][j - 1] == keys[j];
      KeywordIndexDistinct(keys[1..], j - 1);
    }
  }

  lemma {:induction false} MunchWhole(s: string, i: nat, keys: seq<string>, key: string, k: nat)
    requires key in keys && k <= |key| && i <= |s| && s[i..] == key
    ensures Munch(s, i, keys, k) == |key|
    decreases |key| - k
  {
    if k < |key| {
      assert key[..k + 1] == s[i..i + k + 1];
      MunchWhole(s, i, keys, key, k + 1);
    }
  }

  /** A keyword up to the end of the text is found, provided keywords are told apart. */
  lemma ScanFinds(s: string, i: nat, keys: seq<string>, j: nat)
    requires Distinct(keys) && j < |keys| && i <= |s| && s[i..] == keys[j]
    ensures ScanKeyword(s, i, keys) == j
  {
    MunchWhole(s, i, keys, keys[j], 0);
    KeywordIndexDistinct(keys, j);
    assert s[i..i + |keys[j]|] == s[i..];
  }

  function Name(u: Unit, isLong: bool): string {
    if isLong then u.long else u.short
  }

  predicate NamesDiffer(units: seq<Unit>) {
    forall i, j, isLong, isLong' :: 0 <= i < |units| && 0 <= j < |units| && (i != j || isLong != isLong') ==>
      Name(units[i], isLong) != Name(units[j], isLong')
  }

  lemma LongNamesDiffer(i: nat, j: nat)
    requires i < |UNITS| && j < |UNITS| && i != j
    ensures UNITS[i].long != UNITS[j].long
  {
  }

  lemma ShortNamesDiffer(i: nat, j: nat)
    requires i < |UNITS| && j < |UNITS| && i != j
    ensures UNITS[i].short != UNITS[j].short
  {
  }

  lemma LongIsNotShort(i: nat, j: nat)
    requires i < |UNITS| && j < |UNITS|
    ensures UNITS[i].long != UNITS[j].short
  {
  }

  lemma UnitNamesDiffer()
    ensures NamesDiffer(UNITS)
  {
    hide UNITS;
    forall i, j, isLong, isLong' | 0 <= i < |UNITS| && 0 <= j < |UNITS| && (i != j || isLong != isLong')
      ensures Name(UNITS[i], isLong) != Name(UNITS[j], isLong')
    {
      if isLong != isLong' {
        LongIsNotShort(if isLong then i else j, if isLong then j else i);
      } else if isLong {
        LongNamesDiffer(i, j);
      } else {
        ShortNamesDiffer(i, j);
      }
    }
  }

  /** The keywords that the reader scans for are distinct. */
  lemma KeywordsDistinct()
    ensures Distinct(Keywords(UNITS))
  {
    UnitNamesDiffer();
    NamesMakeKeywords(UNITS);
    hide UNITS, Keywords;
  }

  lemma NamesMakeKeywords(units: seq<Unit>)
    requires NamesDiffer(units)
    ensures Distinct(Keywords(units))
  {
    var keys := Keywords(units);
    hide Keywords;
    forall i, j | 0 <= i < j < |keys| ensures keys[i] != keys[j] {
      KeywordName(units, i);
      KeywordName(units, j);
    }
  }

  lemma KeywordName(units: seq<Unit>, i: nat)
    requires i < |Keywords(units)|
    ensures i / 2 < |units| && Keywords(units)[i] == Name(units[i / 2], i % 2 == 0)
    ensures i == 2 * (i / 2) + i % 2
  {
    hide Keywords;
    assert i == 2 * (i / 2) || i == 2 * (i / 2) + 1;
  }

  lemma NumberReadsBack(a: string, n: nat, b: string, max: nat)
    requires n <= max && (b != [] ==> !IsDigit(b[0]))
    ensures NumberAt(a + NatText(n) + b, |a|, max) == Some((n, |a| + |NatText(n)|))
  {
    hide Value, NatText;
    var s := a + NatText(n) + b;
    RunEndAt(a, NatText(n), b);
    NatTextValue(n);
    assert s[|a|] == NatText(n)[0];
    assert s[|a|..|a| + |NatText(n)|] == NatText(n);
  }

  lemma UnitReadsBack(a: string, isLong: bool, period: Ratio)
    requires IsPositive(period)
    ensures UnitText(isLong, period) != []
    ensures UnitAt(a + UnitText(isLong, period), |a|) == Some(period)
  {
    var k := FindUnit(UNITS, period);
    if k < |UNITS| {
      NamedReadsBack(a, isLong, k);
    } else {
      BracketReadsBack(a, isLong, period);
    }
  }

  lemma NamedReadsBack(a: string, isLong: bool, k: nat)
    requires k < |UNITS|
    ensures Name(UNITS[k], isLong) != []
    ensures UnitAt(a + Name(UNITS[k], isLong), |a|) == Some(UNITS[k].ratio)
  {
    hide *;
    var name := Name(UNITS[k], isLong);
    NameStart(k, isLong);
    UnitNamesDiffer();
    KeywordsDistinct();
    KeywordOf(UNITS, k, isLong);
    var s := a + name;
    assert s[|a|..] == name;
    assert s[|a|] == name[0];
    ScanFinds(s, |a|, Keywords(UNITS), if isLong then 2 * k else 2 * k + 1);
    UnitByName(s, |a|, k);
  }

  lemma KeywordOf(units: seq<Unit>, k: nat, isLong: bool)
    requires k < |units|
    ensures var j := if isLong then 2 * k else 2 * k + 1;
            j < |Keywords(units)| && Keywords(units)[j] == Name(units[k], isLong) && j / 2 == k
  {
    hide Keywords;
  }

  lemma UnitByName(s: string, i: nat, k: nat)
    requires i < |s| && s[i] != '[' && ScanKeyword(s, i, Keywords(UNITS)) / 2 == k < |UNITS|
    ensures UnitAt(s, i) == Some(UNITS[k].ratio)
  {
    hide ScanKeyword, Keywords;
  }

  lemma NameStart(k: nat, isLong: bool)
    requires k < |UNITS|
    ensures Name(UNITS[k], isLong) != [] && Name(UNITS[k], isLong)[0] != '['
  {
  }

  lemma BracketReadsBack(a: string, isLong: bool, period: Ratio)
    requires IsPositive(period)
    ensures var second := if isLong then "seconds" else "s";
            var s := a + ("[" + NatText(period.num) + "/" + NatText(period.den) + "]" + second);
            UnitAt(s, |a|) == Some(period)
  {
    hide NatText, ScanKeyword, NumberAt, UNITS, Keywords;
    var second := if isLong then "seconds" else "s";
    var (n, d) := (NatText(period.num), NatText(period.den));
    var s := a + ("[" + n + "/" + d + "]" + second);
    NumberReadsBack(a + "[", period.num, "/" + d + "]" + second, U64_MAX);
    NumberReadsBack(a + "[" + n + "/", period.den, "]" + second, U64_MAX);
    BracketParts(a, n, d, second);
    ScanFinds(s, |a| + 3 + |n| + |d|, SECONDS_KEYS, if isLong then 0 else 1);
  }

  /** The bracketed unit cut at each of its parts. */
  lemma BracketParts(a: string, n: string, d: string, second: string)
    ensures var s := a + ("[" + n + "/" + d + "]" + second);
            && s == (a + "[") + n + ("/" + d + "]" + second)
            && s == (a + "[" + n + "/") + d + ("]" + second)
            && |s| == |a| + 3 + |n| + |d| + |second|
            && s[|a|] == '[' && s[|a| + 1 + |n|] == '/' && s[|a| + 2 + |n| + |d|] == ']'
            && s[|a| + 3 + |n| + |d|..] == second
  {
    var s := a + ("[" + n + "/" + d + "]" + second);
    assert s == (a + "[") + n + ("/" + d + "]" + second);
    assert s == (a + "[" + n + "/") + d + ("]" + second);
  }

  /** Printing a duration and reading it into the same period gives the same count. */
  lemma DurationRoundTrip(isLong: bool, count: nat, period: Ratio, countMax: nat, repMax: nat)
    requires IsPositive(period) && count <= countMax && count <= repMax
    ensures CountAndUnit(PrintDuration(isLong, count, period), countMax) == Some((count, period))
    ensures Rescaled(count, period, period, repMax) == Stored(count)
  {
    hide NatText, NumberAt, UnitAt, UnitText, Rescaled;
    var (c, u) := (NatText(count), UnitText(isLong, period));
    NumberReadsBack([], count, " " + u, countMax);
    assert [] + c + (" " + u) == c + " " + u;
    UnitReadsBack(c + " ", isLong, period);
    assert (c + " ") + u == c + " " + u;
    SamePeriod(count, period, repMax);
  }

  // ----- the names by hand

  /** The period prints under the two names, and both are read as the period. */
  predicate Named(period: Ratio, long: string, short: string) {
    && UnitText(true, period) == long && UnitText(false, period) == short
    && UnitAt(long, 0) == Some(period) && UnitAt(short, 0) == Some(period)
  }

  lemma {:induction false} FindFirst(units: seq<Unit>, k: nat)
    requires k < |units| && forall i :: 0 <= i < k ==> units[i].ratio != units[k].ratio
    ensures FindUnit(units, units[k].ratio) == k
  {
    if k > 0 {
      FindFirst(units[1..], k - 1);
    }
  }

  lemma RatiosDiffer(i: nat, k: nat)
    requires i < k < |UNITS|
    ensures UNITS[i].ratio != UNITS[k].ratio
  {
  }

  lemma PrintedAt(k: nat)
    requires k < |UNITS|
    ensures UnitText(true, UNITS[k].ratio) == UNITS[k].long && UnitText(false, UNITS[k].ratio) == UNITS[k].short
  {
    hide UNITS, FindUnit;
    forall i | 0 <= i < k ensures UNITS[i].ratio != UNITS[k].ratio {
      RatiosDiffer(i, k);
    }
    FindFirst(UNITS, k);
  }

  lemma NamedAt(k: nat)
    requires k < |UNITS|
    ensures Named(UNITS[k].ratio, UNITS[k].long, UNITS[k].short)
  {
    hide UNITS, UnitAt, FindUnit, UnitText, IsPositive;
    var unit := UNITS[k];
    AllPositive(k);
    PrintedAt(k);
    UnitReadsBack([], true, unit.ratio);
    UnitReadsBack([], false, unit.ratio);
    NothingBefore(unit.long);
    NothingBefore(unit.short);
  }

  lemma NothingBefore(s: string)
    ensures [] + s == s
  {
  }

  lemma AllPositive(k: nat)
    requires k < |UNITS|
    ensures IsPositive(UNITS[k].ratio)
  {
  }

  lemma PartsByHand()
    ensures |UNITS| == 19
    ensures UNITS[0] == Unit(Ratio(1, 1000000000000000000), "attoseconds", "as")
    ensures UNITS[1] == Unit(Ratio(1, 1000000000000000), "femtoseconds", "fs")
    ensures UNITS[2] == Unit(Ratio(1, 1000000000000), "picoseconds", "ps")
    ensures UNITS[3] == Unit(Ratio(1, 1000000000), "nanoseconds", "ns")
  {
  }

  lemma MorePartsByHand()
    ensures |UNITS| == 19
    ensures UNITS[4] == Unit(Ratio(1, 1000000), "microseconds", "\U{C2}\U{B5}s")
    ensures UNITS[5] == Unit(Ratio(1, 1000), "milliseconds", "ms")
    ensures UNITS[6] == Unit(Ratio(1, 100), "centiseconds", "cs") && UNITS[7] == Unit(Ratio(1, 10), "deciseconds", "ds")
  {
  }

  lemma MultiplesByHand()
    ensures |UNITS| == 19
    ensures UNITS[8] == Unit(Ratio(10, 1), "decaseconds", "das") && UNITS[9] == Unit(Ratio(100, 1), "hectoseconds", "hs")
    ensures UNITS[10] == Unit(Ratio(1000, 1), "kiloseconds", "ks")
    ensures UNITS[11] == Unit(Ratio(1000000, 1), "megaseconds", "Ms")
    ensures UNITS[12] == Unit(Ratio(1000000000, 1), "gigaseconds", "Gs")
    ensures UNITS[13] == Unit(Ratio(1000000000000, 1), "teraseconds", "Ts")
    ensures UNITS[14] == Unit(Ratio(1000000000000000, 1), "petaseconds", "Ps")
    ensures UNITS[15] == Unit(Ratio(1000000000000000000, 1), "exaseconds", "Es")
  {
  }

  lemma ClockByHand()
    ensures |UNITS| == 19
    ensures UNITS[16] == Unit(Ratio(1, 1), "seconds", "s") && UNITS[17] == Unit(Ratio(60, 1), "minutes", "m")
    ensures UNITS[18] == Unit(Ratio(3600, 1), "hours", "h")
  {
  }

  /** Every named unit: what the printer calls it, long and short, and what the reader takes the names for. */
  lemma UnitNames()
    ensures Named(Ratio(1, 1), "seconds", "s") && Named(Ratio(60, 1), "minutes", "m") && Named(Ratio(3600, 1), "hours", "h")
    ensures Named(Ratio(1, 1000000000000000000), "attoseconds", "as")
    ensures Named(Ratio(1, 1000000000000000), "femtoseconds", "fs")
    ensures Named(Ratio(1, 1000000000000), "picoseconds", "ps") && Named(Ratio(1, 1000000000), "nanoseconds", "ns")
    ensures Named(Ratio(1, 1000000), "microseconds", "\U{C2}\U{B5}s") && Named(Ratio(1, 1000), "milliseconds", "ms")
    ensures Named(Ratio(1, 100), "centiseconds", "cs") && Named(Ratio(1, 10), "deciseconds", "ds")
    ensures Named(Ratio(10, 1), "decaseconds", "das") && Named(Ratio(100, 1), "hectoseconds", "hs")
    ensures Named(Ratio(1000, 1), "kiloseconds", "ks") && Named(Ratio(1000000, 1), "megaseconds", "Ms")
    ensures Named(Ratio(1000000000, 1), "gigaseconds", "Gs") && Named(Ratio(1000000000000, 1), "teraseconds", "Ts")
    ensures Named(Ratio(1000000000000000, 1), "petaseconds", "Ps")
    ensures Named(Ratio(1000000000000000000, 1), "exaseconds", "Es")
  {
    PartsByHand();
    MorePartsByHand();
    MultiplesByHand();
    ClockByHand();
    hide UNITS, Named;
    forall k | 0 <= k < 19 ensures Named(UNITS[k].ratio, UNITS[k].long, UNITS[k].short) {
      NamedAt(k);
    }
  }

  /** A period without a name prints as its fraction of a second. */
  lemma UnnamedText(isLong: bool, period: Ratio)
    requires forall k :: 0 <= k < |UNITS| ==> UNITS[k].ratio != period
    ensures UnitText(isLong, period) == "[" + NatText(period.num) + "/" + NatText(period.den) + "]" + (if isLong then "seconds" else "s")
  {
    hide UNITS;
  }
}
