/** The pure rules inside the interactive input helpers of `main.py`:
    the range test of `get_valid_input`, the degree ranges used by
    `get_dms` and `get_point`, and the degrees/minutes/seconds conversion of
    `get_dms`.  The prompting and retrying around them is not modelled. */
module InputRules {
  import opened Geo

  /** The range test of `get_valid_input`: a value is rejected exactly when a
      lower bound is given and the value is below it, or an upper bound is
      given and the value is above it.  `None` means "no bound". */
  predicate Accepts(val: real, minVal: Option<real>, maxVal: Option<real>)
    // Both bounds are inclusive, and a missing bound imposes nothing.
    ensures Accepts(val, minVal, maxVal) <==>
      (minVal == None || minVal.value <= val) && (maxVal == None || val <= maxVal.value)
  {
    !((minVal.Some? && val < minVal.value) || (maxVal.Some? && val > maxVal.value))
  }

  /** Largest absolute value of degrees: 90 for latitude, 180 for longitude. */
  function DegreeLimit(isLat: bool): real
  {
    if isLat then 90.0 else 180.0
  }

  /** The test applied to degrees, both to decimal degrees in `get_point`
      and to the degrees part in `get_dms`. */
  predicate DegreesAccepted(val: real, isLat: bool)
    ensures DegreesAccepted(val, isLat) <==> -DegreeLimit(isLat) <= val <= DegreeLimit(isLat)
  {
    Accepts(val, Some(-DegreeLimit(isLat)), Some(DegreeLimit(isLat)))
  }

  /** The test applied to minutes and to seconds in `get_dms`: 0 to 59. */
  predicate MinutesAccepted(val: real)
    ensures MinutesAccepted(val) <==> 0.0 <= val <= 59.0
  {
    Accepts(val, Some(0.0), Some(59.0))
  }

  /** Boundary values: 90 is a latitude and 91 is not; 180 is a longitude
      and 181 is not; the same on the negative side. */
  lemma DegreeBoundsInclusive()
    ensures DegreesAccepted(90.0, true) && DegreesAccepted(-90.0, true)
    ensures !DegreesAccepted(91.0, true) && !DegreesAccepted(-91.0, true)
    ensures DegreesAccepted(180.0, false) && DegreesAccepted(-180.0, false)
    ensures !DegreesAccepted(181.0, false) && !DegreesAccepted(-181.0, false)
    ensures DegreesAccepted(91.0, false)
  {
  }

  /** The point counts are read with a lower bound of 1 and then truncated
      with `int()`; every accepted count truncates to at least one point,
      which is why `pair_arrays` never sees an empty second array. */
  lemma AcceptedCountIsPositive(count: real)
    requires Accepts(count, Some(1.0), None)
    ensures count.Floor >= 1
  {
  }

  function Abs(x: real): real
  {
    if x < 0.0 then -x else x
  }

  /** The conversion of `get_dms`: one sign, taken from the degrees, applied
      to the whole angle `|d| + m/60 + s/3600`.  With non-negative minutes
      and seconds the result has the sign of the degrees, and its magnitude
      is the degrees' magnitude plus the fraction. */
  function DmsToDecimal(d: real, m: real, s: real): (r: real)
    ensures 0.0 <= m && 0.0 <= s ==> (r >= 0.0 <==> d >= 0.0)
    ensures 0.0 <= m && 0.0 <= s ==> Abs(r) == Abs(d) + m / 60.0 + s / 3600.0
  {
    var sign := if d >= 0.0 then 1.0 else -1.0;
    sign * (Abs(d) + m / 60.0 + s / 3600.0)
  }

  /** Minutes and seconds in the accepted range add less than one degree:
      `|d| <= |result| < |d| + 1`. */
  lemma DmsWithinOneDegree(d: real, m: real, s: real)
    requires MinutesAccepted(m) && MinutesAccepted(s)
    ensures Abs(d) <= Abs(DmsToDecimal(d, m, s)) < Abs(d) + 1.0
  {
    assert m / 60.0 <= 59.0 / 60.0;
    assert s / 3600.0 <= 59.0 / 3600.0;
  }

  /** Whole degrees convert to themselves, and negating non-zero degrees
      negates the result. */
  lemma DmsWholeDegreesAndNegation(d: real, m: real, s: real)
    ensures DmsToDecimal(d, 0.0, 0.0) == d
    ensures d != 0.0 ==> DmsToDecimal(-d, m, s) == -DmsToDecimal(d, m, s)
  {
  }

  /** The degrees, minutes and seconds prompts accept (90, 30, 0) for a
      latitude, yet the converted value 90.5 is one the decimal-degrees
      path rejects. */
  lemma DmsCanLeaveLatitudeRange()
    ensures DegreesAccepted(90.0, true) && MinutesAccepted(30.0) && MinutesAccepted(0.0)
    ensures DmsToDecimal(90.0, 30.0, 0.0) == 90.5
    ensures !DegreesAccepted(DmsToDecimal(90.0, 30.0, 0.0), true)
  {
  }

  /** The conversion with the axis range applied to its result, as the
      decimal-degrees path applies it: `None` asks the caller to prompt
      again. */
  function CheckedDms(d: real, m: real, s: real, isLat: bool): (r: Option<real>)
    ensures r.Some? ==> r.value == DmsToDecimal(d, m, s) && DegreesAccepted(r.value, isLat)
    ensures r.None? ==> !DegreesAccepted(DmsToDecimal(d, m, s), isLat)
  {
    var v := DmsToDecimal(d, m, s);
    if DegreesAccepted(v, isLat) then Some(v) else None
  }

  /** The check rejects nothing the prompts accept when the degrees are at
      least one degree inside the axis range: only the last degree before
      the pole or the antimeridian can overflow. */
  lemma {:induction false} CheckedDmsAcceptsInterior(d: real, m: real, s: real, isLat: bool)
    requires MinutesAccepted(m) && MinutesAccepted(s)
    requires Abs(d) <= DegreeLimit(isLat) - 1.0
    ensures CheckedDms(d, m, s, isLat) == Some(DmsToDecimal(d, m, s))
  {
    DmsWithinOneDegree(d, m, s);
  }
}
