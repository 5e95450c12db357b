# geo-proximity-calculator, modelled in Dafny

`main.py` reads two lists of geographic points (latitude, longitude in
decimal degrees, entered either as decimals or as degrees/minutes/seconds)
and, for every point of the first list, finds the nearest point of the second
list by great-circle (haversine) distance.

This project models the logic around the distance formula:

- `geo.dfy` (module `Geo`): the `(lat, lon)` point and the shape of the
  distance function. `haversine_distance` is a parameter of type
  `(real, real, real, real) -> real`, so every result below holds for any
  distance function whatever.
- `matching.dfy` (module `Matching`): `find_closest_point` as the method
  `FindClosest` (the running-minimum scan with its loop invariant) and
  `pair_arrays` as `PairArrays`. `NearestIndex` writes the scan as a function
  over prefixes. `IsFirstClosest` is an independent definition of the answer:
  a candidate at minimum distance with every earlier candidate strictly
  farther. `NearestIndexIsFirstClosest` connects the two.
- `input_rules.dfy` (module `InputRules`): the range test of
  `get_valid_input`, the degree ranges used by `get_dms` and `get_point`, and
  the degrees/minutes/seconds conversion of `get_dms`.

Floating-point numbers are idealised as `real`.

## Model

| member | source | states |
|---|---|---|
| `Matching.NearestIndex` | main.py:32-36 | the index held after the scan always points into the candidate list |
| `Matching.NearestIndexIsFirstClosest` | main.py:32-36 | the scan ends on a candidate at minimum distance from the reference, and every earlier candidate is strictly farther away (strict `<`: first one wins) |
| `Matching.FirstClosestUnique` | main.py:34 | at most one index is "at minimum distance with all earlier candidates strictly farther", so the tie-break fully determines the answer |
| `Matching.TieGoesToEarlier` | main.py:34-36 | when two candidates are at the same distance, the later one is never the one returned |
| `Matching.FindClosest` | main.py:28-38 | an empty list gives `(None, None)`; otherwise the result is a member of the list, the distance is the distance to it, no candidate is closer, and it is the first candidate at that distance |
| `Matching.PairArrays` | main.py:42-49 | whenever the first list is non-empty the second must be too (an empty first list gives an empty result); the result has one entry per point of the first list, in order; entry i has source `array1[i]` and holds the nearest point of the second list to it (a member of that list, no point closer) with its distance |
| `InputRules.Accepts` | main.py:59 | a value is accepted iff it is not below a given lower bound and not above a given upper bound; both bounds inclusive; a missing bound imposes nothing |
| `InputRules.DegreesAccepted` | main.py:91-92 | decimal degrees (and, at main.py:72-73, the degrees part of a DMS entry) are accepted iff they lie in -90..90 for latitude or -180..180 for longitude, bounds included |
| `InputRules.MinutesAccepted` | main.py:75-76 | minutes and seconds are accepted iff they lie in 0..59, bounds included |
| `InputRules.DegreeBoundsInclusive` | main.py:72-73 | with the latitude range -90..90 (the same at main.py:91) 90 and -90 are accepted and 91 and -91 are not; with the longitude range -180..180, 180 is accepted and 181 is not |
| `InputRules.AcceptedCountIsPositive` | main.py:111-112 | a point count accepted with lower bound 1 truncates to at least 1, so the second list handed to `pair_arrays` is never empty |
| `InputRules.DmsToDecimal` | main.py:79-81 | with non-negative minutes and seconds, the result is non-negative when the degrees are non-negative and negative when they are negative; its magnitude is `|d| + m/60 + s/3600` |
| `InputRules.DmsWithinOneDegree` | main.py:75-81 | with minutes and seconds in 0..59, `|d| <= |result| < |d| + 1` |
| `InputRules.DmsWholeDegreesAndNegation` | main.py:79-81 | zero minutes and seconds give back the degrees; negating non-zero degrees negates the result |
| `InputRules.DmsCanLeaveLatitudeRange` | main.py:72-81 | degrees 90, minutes 30, seconds 0 all pass their prompts' range tests, yet convert to 90.5, outside the latitude range |
| `InputRules.CheckedDms` | main.py:72-82 | the conversion with the axis range applied to the result: a value is returned only if it lies in the axis range, and nothing is returned only if the converted value is outside it |
| `InputRules.CheckedDmsAcceptsInterior` | main.py:72-82 | when the degrees are at least one degree inside the axis range, the range check on the result passes every value the prompts accept |

## Findings

| source | as written | input that shows it | evidently intended | confidence | as-written member | corrected member |
|---|---|---|---|---|---|---|
| main.py:72-81 | `get_dms` checks degrees against -90..90 (latitude) or -180..180 (longitude) and minutes and seconds against 0..59, then adds the fraction without checking the sum | latitude as degrees 90, minutes 30, seconds 0 gives 90.5 | the value returned is a latitude (or longitude) in range, as the decimal path at main.py:91-92 guarantees | medium, not executed | `InputRules.DmsCanLeaveLatitudeRange` (on `InputRules.DmsToDecimal`) | `InputRules.CheckedDms`, with `InputRules.CheckedDmsAcceptsInterior` |

## Left out

- `haversine_distance` (main.py:4-25): its body uses floating-point `sin`,
  `cos`, `atan2` and `sqrt`, which are not modelled. It is a parameter of
  every operation, so no property of the distance itself (zero on equal
  points, symmetry, the London–Paris value of about 343 km) is stated. The
  parameter is a total function, so the case where `math.sqrt(1 - a)`
  (main.py:18) raises because rounding pushed `a` slightly above 1 is not
  modelled; in the program that error escapes `find_closest_point` and
  `pair_arrays`.
- Floating point: values are `real`. There is no NaN, no rounding and no
  negative zero. In Python `-0.0 >= 0` holds, so `get_dms` treats degrees
  `-0` as positive, exactly as `DmsToDecimal` treats `0`. A southern or
  western angle below one degree therefore cannot be entered as `-0` degrees
  with minutes, in the source or in the model.
- NaN in particular: `get_valid_input` accepts the text "nan" for degrees,
  minutes, seconds and counts, because both comparisons at main.py:59 are
  false for NaN. If the first candidate's distance is NaN it becomes the
  running minimum, every later `dist < min_distance` at main.py:34 is false,
  and the scan returns that candidate instead of the closest. Reals have no
  NaN, so `Accepts` and `FindClosest` do not capture this.
- The prompt loops `get_valid_input` (main.py:53-64), `get_point`
  (main.py:84-96) and the prompting in `get_dms` (main.py:68-76): console
  I/O. Only their range rule and conversion are modelled. The parsing of the
  typed text with `float()` and its error messages are left out.
- The `__main__` block (main.py:98-127): console wiring and printing of the
  results. Only the fact that the counts are at least 1 is kept, as the
  reason for `PairArrays`' precondition.
- `parse_coordinate` and `load_points_csv`, which the tests import, are not
  part of this model: `main.py` does not define them.
- `Matching.PairArrays`: requires a non-empty second list whenever the first
  list is non-empty. With a non-empty first list and an empty second one,
  `pair_arrays` fails when it unpacks `None` as a tuple (main.py:46); its only
  caller rules that out (main.py:111). An empty first list never reaches the
  unpacking and gives an empty result, which the model keeps.
