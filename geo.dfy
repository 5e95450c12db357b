/** Geographic points and the distance between them.

    A point is the `(lat, lon)` pair of decimal degrees that `main.py` passes
    around.  Floating-point values are idealised as `real`.  The haversine
    formula itself (trigonometry on floats) is not modelled: every operation
    that needs a distance takes the distance function as a parameter, with the
    argument order of `haversine_distance(lat1, lon1, lat2, lon2)`, so every
    property proved here holds for ANY distance function. */
module Geo {

  datatype Option<+T> = None | Some(value: T)

  /** A `(lat, lon)` tuple, in decimal degrees. */
  datatype Point = Point(lat: real, lon: real)

  /** The shape of `haversine_distance(lat1, lon1, lat2, lon2)` (kilometres). */
  type DistanceFn = (real, real, real, real) -> real

  /** Distance from `from` to `to`, argument order as in `find_closest_point`'s call
      `haversine_distance(temp_lat, temp_lon, lat, lon)`. */
  function DistTo(dist: DistanceFn, from: Point, to: Point): real
  {
    dist(from.lat, from.lon, to.lat, to.lon)
  }
}
