/** Nearest-point search and pairing (`find_closest_point`, `pair_arrays`).

    The search is a left-to-right scan that keeps a running minimum and
    replaces it only on a STRICTLY smaller distance, so among several
    candidates at the minimum distance the first one wins.  `NearestIndex`
    is that scan written as a function over prefixes of the candidate list;
    `IsFirstClosest` says independently what the answer must be. */
module Matching {
  import opened Geo

  /** One entry of `pair_arrays`' result: `((lat1, lon1), (closest_lat, closest_lon), dist_km)`. */
  datatype MatchedPair = MatchedPair(source: Point, closest: Point, distanceKm: real)

  /** `cs[k]` is at minimum distance from `reference`, and every candidate
      before it is strictly farther away. */
  ghost predicate IsFirstClosest(dist: DistanceFn, reference: Point, cs: seq<Point>, k: int)
  {
    0 <= k < |cs| &&
    (forall j :: 0 <= j < |cs| ==> DistTo(dist, reference, cs[k]) <= DistTo(dist, reference, cs[j])) &&
    (forall j :: 0 <= j < k ==> DistTo(dist, reference, cs[k]) < DistTo(dist, reference, cs[j]))
  }

  /** Index of the point the scan holds after visiting all of `cs`: the
      point kept after the prefix without the last candidate, unless the last
      candidate is strictly closer. */
  function NearestIndex(dist: DistanceFn, reference: Point, cs: seq<Point>): (k: nat)
    requires cs != []
    ensures k < |cs|
    decreases |cs|
  {
    if |cs| == 1 then 0
    else
      var k := NearestIndex(dist, reference, cs[..|cs| - 1]);
      if DistTo(dist, reference, cs[|cs| - 1]) < DistTo(dist, reference, cs[k]) then |cs| - 1 else k
  }

  /** The scan finds the first candidate at minimum distance. */
  lemma {:induction false} NearestIndexIsFirstClosest(dist: DistanceFn, reference: Point, cs: seq<Point>)
    requires cs != []
    ensures IsFirstClosest(dist, reference, cs, NearestIndex(dist, reference, cs))
    decreases |cs|
  {
    if |cs| > 1 {
      var n := |cs|;
      var prefix := cs[..n - 1];
      NearestIndexIsFirstClosest(dist, reference, prefix);
      var k := NearestIndex(dist, reference, prefix);
      assert forall j :: 0 <= j < n - 1 ==> prefix[j] == cs[j];
      assert DistTo(dist, reference, prefix[k]) == DistTo(dist, reference, cs[k]);
    }
  }

  /** The first-closest candidate is unique: the tie-break leaves no choice. */
  lemma FirstClosestUnique(dist: DistanceFn, reference: Point, cs: seq<Point>, k1: int, k2: int)
    requires IsFirstClosest(dist, reference, cs, k1)
    requires IsFirstClosest(dist, reference, cs, k2)
    ensures k1 == k2
  {
    // An earlier first-closest index would be strictly closer than the later one.
    var d1, d2 := DistTo(dist, reference, cs[k1]), DistTo(dist, reference, cs[k2]);
    assert d1 <= d2 && d2 <= d1;
    assert k1 < k2 ==> d2 < d1;
    assert k2 < k1 ==> d1 < d2;
  }

  /** On a tie between two candidates at the minimum distance, the earlier
      one is returned, never the later one. */
  lemma {:induction false} TieGoesToEarlier(dist: DistanceFn, reference: Point, cs: seq<Point>, i: int, j: int)
    requires 0 <= i < j < |cs|
    requires DistTo(dist, reference, cs[i]) == DistTo(dist, reference, cs[j])
    ensures NearestIndex(dist, reference, cs) != j
  {
    NearestIndexIsFirstClosest(dist, reference, cs);
  }

  /** `find_closest_point`: scan `cs` keeping the running minimum.  Returns
      `(None, None)` on an empty list; otherwise the first candidate at
      minimum distance and that distance. */
  method FindClosest(dist: DistanceFn, reference: Point, cs: seq<Point>)
    returns (closest: Option<Point>, minDistance: Option<real>)
    ensures cs == [] ==> closest == None && minDistance == None
    ensures cs != [] ==> closest.Some? && minDistance.Some?
    ensures cs != [] ==>
      var k := NearestIndex(dist, reference, cs);
      closest == Some(cs[k]) && minDistance == Some(DistTo(dist, reference, cs[k]))
    ensures closest.Some? ==>
      closest.value in cs &&
      minDistance == Some(DistTo(dist, reference, closest.value)) &&
      (forall j :: 0 <= j < |cs| ==> minDistance.value <= DistTo(dist, reference, cs[j]))
    ensures closest.Some? ==> exists k :: IsFirstClosest(dist, reference, cs, k) && closest.value == cs[k]
  {
    closest, minDistance := None, None;
    for i := 0 to |cs|
      invariant i == 0 ==> closest == None && minDistance == None
      invariant i > 0 ==>
        var k := NearestIndex(dist, reference, cs[..i]);
        closest == Some(cs[k]) && minDistance == Some(DistTo(dist, reference, cs[k]))
    {
      var p := cs[i];
      var d := DistTo(dist, reference, p);
      assert cs[..i + 1][..i] == cs[..i];
      if minDistance.None? || d < minDistance.value {
        minDistance := Some(d);
        closest := Some(p);
      }
    }
    assert cs[..|cs|] == cs;
    if cs != [] {
      NearestIndexIsFirstClosest(dist, reference, cs);
    }
  }

  /** What `pair_arrays` puts at the position of `source`. */
  function PairFor(dist: DistanceFn, source: Point, targets: seq<Point>): MatchedPair
    requires targets != []
  {
    var k := NearestIndex(dist, source, targets);
    MatchedPair(source, targets[k], DistTo(dist, source, targets[k]))
  }

  /** `pair_arrays`: one entry per point of `array1`, in order, each holding
      the nearest point of `array2`.  `pair_arrays` unpacks the nearest point
      as a tuple, which fails when `array2` is empty and `array1` is not; its
      only caller asks for at least one point in each, and an empty `array1`
      gives an empty result whatever `array2` is. */
  method PairArrays(dist: DistanceFn, firstPoints: seq<Point>, secondPoints: seq<Point>)
    returns (matchedPairs: seq<MatchedPair>)
    requires firstPoints != [] ==> secondPoints != []
    ensures |matchedPairs| == |firstPoints|
    ensures forall i :: 0 <= i < |firstPoints| ==> matchedPairs[i] == PairFor(dist, firstPoints[i], secondPoints)
    ensures forall i :: 0 <= i < |firstPoints| ==>
      matchedPairs[i].source == firstPoints[i] &&
      matchedPairs[i].closest in secondPoints &&
      matchedPairs[i].distanceKm == DistTo(dist, firstPoints[i], matchedPairs[i].closest) &&
      (forall j :: 0 <= j < |secondPoints| ==> matchedPairs[i].distanceKm <= DistTo(dist, firstPoints[i], secondPoints[j]))
  {
    matchedPairs := [];
    for i := 0 to |firstPoints|
      invariant |matchedPairs| == i
      invariant forall j :: 0 <= j < i ==> matchedPairs[j] == PairFor(dist, firstPoints[j], secondPoints)
      invariant forall j :: 0 <= j < i ==>
        matchedPairs[j].source == firstPoints[j] &&
        matchedPairs[j].closest in secondPoints &&
        matchedPairs[j].distanceKm == DistTo(dist, firstPoints[j], matchedPairs[j].closest) &&
        (forall t :: 0 <= t < |secondPoints| ==> matchedPairs[j].distanceKm <= DistTo(dist, firstPoints[j], secondPoints[t]))
    {
      var closest, distKm := FindClosest(dist, firstPoints[i], secondPoints);
      matchedPairs := matchedPairs + [MatchedPair(firstPoints[i], closest.value, distKm.value)];
    }
  }
}
