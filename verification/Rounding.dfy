/** Rounding a duration to whole units of a coarser one. */
module Rounding {

  /** The nearest integer, halves to the even neighbour. */
  function HalfEven(d: real): int {
    var f := d.Floor;
    if 2.0 * (d - f as real) < 1.0 || (2.0 * (d - f as real) == 1.0 && f % 2 == 0) then f else f + 1
  }

  /** `duration_cast` to an integral count drops the fraction. */
  function Truncate(d: real): int {
    if d >= 0.0 then d.Floor else -((-d).Floor)
  }

  /** What the code computes; below zero truncation already steps the wrong way. */
  function Rounded(d: real): int {
    if d >= 0.0 then HalfEven(d) else Truncate(d)
  }

  /** What "nearest, ties to even" asks of an answer, however it is computed. */
  predicate IsNearestTiesEven(k: int, d: real) {
    -1.0 <= 2.0 * (d - k as real) <= 1.0 && (2.0 * (d - k as real) in {1.0, -1.0} ==> k % 2 == 0)
  }

  /** Truncate, step up by one, and keep the closer of the two. */
  method Round(d: real) returns (r: int)
    ensures r == Rounded(d)
    ensures d >= 0.0 ==> IsNearestTiesEven(r, d)
  {
    var t0 := Truncate(d);
    var t1 := t0;
    t1 := t1 + 1;
    var diff0 := d - t0 as real;
    var diff1 := t1 as real - d;
    if diff0 == diff1 {
      return if t0 % 2 == 1 then t1 else t0;
    } else if diff0 < diff1 {
      return t0;
    }
    return t1;
  }

  /** The specification has one solution, and `HalfEven` is it. */
  lemma NearestIsUnique(k: int, d: real)
    ensures IsNearestTiesEven(k, d) <==> k == HalfEven(d)
  {
    var f := d.Floor;
    if IsNearestTiesEven(k, d) {
      assert f - 1 < k < f + 2;
    }
  }

  /** Below zero the code drops the fraction, which is the nearest integer only for fractions up to a half. */
  lemma RoundBelowZero(d: real)
    requires d < 0.0
    ensures Rounded(d) == HalfEven(d) <==>
            var lost := -d - ((-d).Floor) as real;
            2.0 * lost < 1.0 || (2.0 * lost == 1.0 && (-d).Floor % 2 == 0)
  {
    NearestIsUnique(Truncate(d), d);
  }

  /** An error of less than half a unit is absorbed. */
  lemma AbsorbsError(k: int, d: real)
    requires -1.0 < 2.0 * (d - k as real) < 1.0
    ensures HalfEven(d) == k
  {
    NearestIsUnique(k, d);
  }
}
