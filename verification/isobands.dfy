/**
 * The exported isoband function: group the points into latitude rows, build the
 * z-value grid, derive the affine map, contour each break interval, rescale the
 * rings in place and tag each band's polygon with its upper break.
 */
module Isobands {
  import opened Geo
  import opened KeyOrder
  import opened Grouping
  import opened GridData
  import opened Affine
  import opened Bands
  import opened Rescale

  /** The arguments handed to the polygon constructor: the rings and the properties `{[key]: z}`. */
  datatype Polygon = Polygon(coords: seq<Ring>, properties: map<string, real>)

  /** The final `map` over the bands: one polygon per band, in band order. */
  function Polygons(bands: seq<Band>, key: string): seq<Polygon> {
    seq(|bands|, k requires 0 <= k < |bands| => Polygon(bands[k].coords, map[key := bands[k].z]))
  }

  /** The engine's rings for band `k`, over the grid the function builds from `points`. */
  function PlannedContour(points: seq<Point>, key: string, breaks: seq<real>, engine: Engine, k: nat): seq<seq<Vertex>>
    requires k < BandCount(breaks)
  {
    Contour(GridOf(RowsOf(points), key), breaks, engine, k)
  }

  /** The affine map the function derives from the latitude rows of non-empty input. */
  function PlannedMapping(points: seq<Point>): (m: Mapping)
    requires |points| > 0
    ensures HasCorners(RowsOf(points)) && m == GridMapping(RowsOf(points))
  {
    assert HasCorners(RowsOf(points)) by {
      RowsPartition(points);
      assert points[0] in points;
    }
    GridMapping(RowsOf(points))
  }

  /**
   * Grid vertex `[0, 0]` is rewritten to the position of the first point of the first
   * row, which is the first input point of that row's latitude; when no latitude is an
   * array index, it is the position of the very first input point.
   */
  lemma PlannedOrigin(points: seq<Point>)
    requires |points| > 0
    ensures exists i :: (0 <= i < |points| && points[i].lat == RowLats(points)[0] &&
      RescaleVertex([0.0, 0.0], PlannedMapping(points)) == [points[i].lon, points[i].lat] &&
      forall j :: 0 <= j < i ==> points[j].lat != points[i].lat)
    ensures (forall i :: 0 <= i < |points| ==> !IsArrayIndex(points[i].lat)) ==>
      RescaleVertex([0.0, 0.0], PlannedMapping(points)) == [points[0].lon, points[0].lat]
  {
    var m := PlannedMapping(points);
    FirstRowHead(points);
    OriginVertex(m);
    var i :| 0 <= i < |points| && RowsOf(points)[0][0] == points[i] && points[i].lat == RowLats(points)[0] &&
      forall j :: 0 <= j < i ==> points[j].lat != RowLats(points)[0];
    assert RescaleVertex([0.0, 0.0], m) == [points[i].lon, points[i].lat];
  }

  /**
   * Polygon `k` carries band `k`'s rings and the single property `key` set to the
   * band's tag; there is one polygon per band, in band order.
   */
  lemma PolygonsTagged(bands: seq<Band>, key: string)
    ensures |Polygons(bands, key)| == |bands|
    ensures forall k :: 0 <= k < |bands| ==>
      Polygons(bands, key)[k].coords == bands[k].coords &&
      Polygons(bands, key)[k].properties == map[key := bands[k].z] &&
      Polygons(bands, key)[k].properties.Keys == {key}
  {
  }

  /**
   * The whole function. The points must be non-empty: with none the first row does
   * not exist and the function fails. Polygon `k` is tagged `breaks[k + 1]` and holds,
   * in newly allocated point arrays, the engine's rings for `[breaks[k], breaks[k + 1]]`
   * with every point rewritten by the affine map of the input.
   */
  method Isobands(points: seq<Point>, key: string, breaks: seq<real>, engine: Engine)
    returns (polygons: seq<Polygon>)
    requires |points| > 0
    ensures |polygons| == BandCount(breaks)
    ensures forall k :: 0 <= k < |polygons| ==>
      polygons[k].properties == map[key := breaks[k + 1]] &&
      |polygons[k].coords| == |PlannedContour(points, key, breaks, engine, k)|
    ensures forall k, r :: 0 <= k < |polygons| && 0 <= r < |polygons[k].coords| ==>
      |polygons[k].coords[r]| == |PlannedContour(points, key, breaks, engine, k)[r]|
    ensures forall k, r, i :: 0 <= k < |polygons| && 0 <= r < |polygons[k].coords| && 0 <= i < |polygons[k].coords[r]| ==>
      fresh(polygons[k].coords[r][i]) &&
      polygons[k].coords[r][i][..] ==
        RescaleVertex([PlannedContour(points, key, breaks, engine, k)[r][i].0,
                       PlannedContour(points, key, breaks, engine, k)[r][i].1], PlannedMapping(points))
  {
    var rows := GroupByLatitude(points);
    var grid := BuildGrid(rows, key);
    var m := PlannedMapping(points);
    var bands := EnumerateBands(grid, breaks, engine);
    assert forall k, r, i :: 0 <= k < |bands| && 0 <= r < |bands[k].coords| && 0 <= i < |bands[k].coords[r]| ==>
      bands[k].coords[r][i] in VertexArrays(bands);
    RescaleBands(bands, m);
    polygons := Polygons(bands, key);
    PolygonsTagged(bands, key);
  }
}
