/** Sample points as the isoband function reads them from a GeoJSON point collection. */
module Geo {

  datatype Option<T> = None | Some(value: T)

  /** A Point feature: `geometry.coordinates` is `[lon, lat]` and `properties` holds the named values. */
  datatype Point = Point(lon: real, lat: real, properties: map<string, real>)

  /** `point.properties[key]`: the named value, or `None` (JavaScript `undefined`) when the point lacks it. */
  function ZValue(p: Point, key: string): Option<real> {
    if key in p.properties then Some(p.properties[key]) else None
  }
}
