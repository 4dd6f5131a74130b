/**
 * The affine map from the engine's grid-index space to map coordinates:
 * `(x, y)` becomes `(x * scaleX + x0, y * scaleY + y0)`.
 */
module Affine {
  import opened Geo

  datatype Mapping = Mapping(x0: real, y0: real, scaleX: real, scaleY: real)

  /** The rows the map is derived from: the first row and the last row have a first point. */
  predicate HasCorners(rows: seq<seq<Point>>) {
    |rows| > 0 && |rows[0]| > 0 && |rows[|rows| - 1]| > 0
  }

  /**
   * The map as the isoband function derives it: the origin is the first point of the
   * first row; the width runs from that point to the last point of the first row, the
   * height from it to the first point of the last row; each is divided by the point
   * count of the row (the column count) and by the row count respectively.
   */
  function GridMapping(rows: seq<seq<Point>>): (m: Mapping)
    requires HasCorners(rows)
    ensures m.x0 == rows[0][0].lon && m.y0 == rows[0][0].lat
    ensures m.scaleX * |rows[0]| as real == rows[0][|rows[0]| - 1].lon - rows[0][0].lon
    ensures m.scaleY * |rows| as real == rows[|rows| - 1][0].lat - rows[0][0].lat
  {
    var lastC := |rows[0]| - 1;
    var lastR := |rows| - 1;
    var originalWidth := rows[0][lastC].lon - rows[0][0].lon;
    var originalHeight := rows[lastR][0].lat - rows[0][0].lat;
    var gridWidth := |rows[0]|;
    var gridHeight := |rows|;
    Mapping(rows[0][0].lon, rows[0][0].lat,
            originalWidth / gridWidth as real, originalHeight / gridHeight as real)
  }

  function Apply(m: Mapping, x: real, y: real): (real, real) {
    (x * m.scaleX + m.x0, y * m.scaleY + m.y0)
  }

  /** The inverse map, from map coordinates back to grid-index space. */
  function Unapply(m: Mapping, gx: real, gy: real): (real, real)
    requires m.scaleX != 0.0 && m.scaleY != 0.0
  {
    ((gx - m.x0) / m.scaleX, (gy - m.y0) / m.scaleY)
  }

  /** With non-zero scales the map is a bijection: `Unapply` undoes `Apply` and `Apply` undoes `Unapply`. */
  lemma ApplyInverse(m: Mapping, x: real, y: real, gx: real, gy: real)
    requires m.scaleX != 0.0 && m.scaleY != 0.0
    ensures Unapply(m, Apply(m, x, y).0, Apply(m, x, y).1) == (x, y)
    ensures Apply(m, Unapply(m, gx, gy).0, Unapply(m, gx, gy).1) == (gx, gy)
  {
    var u := Unapply(m, gx, gy);
    assert u.0 * m.scaleX == gx - m.x0;
    assert u.1 * m.scaleY == gy - m.y0;
    var a := Apply(m, u.0, u.1);
    assert a.0 == gx && a.1 == gy;
    var g := Apply(m, x, y);
    var v := Unapply(m, g.0, g.1);
    assert v.0 == x && v.1 == y;
  }

  /**
   * The grid origin lands on the first point of the first row, and the grid corner
   * one past the last column and the last row lands on the far corner of the
   * sampled extent: the last point's longitude of the first row and the first
   * point's latitude of the last row.
   */
  lemma GridCorners(rows: seq<seq<Point>>)
    requires HasCorners(rows)
    ensures Apply(GridMapping(rows), 0.0, 0.0) == (rows[0][0].lon, rows[0][0].lat)
    ensures Apply(GridMapping(rows), |rows[0]| as real, |rows| as real) ==
      (rows[0][|rows[0]| - 1].lon, rows[|rows| - 1][0].lat)
  {
    var m := GridMapping(rows);
    var w, h := |rows[0]| as real, |rows| as real;
    assert w * m.scaleX == m.scaleX * w;
    assert h * m.scaleY == m.scaleY * h;
    assert w * m.scaleX + m.x0 == rows[0][|rows[0]| - 1].lon;
    assert h * m.scaleY + m.y0 == rows[|rows| - 1][0].lat;
  }

  /**
   * As written, the last data column does not land on the last longitude: index
   * `lastC` of a first row of two or more points with distinct end longitudes maps
   * short of the row's last point, by one column spacing.
   */
  lemma ScaleFallsShort(rows: seq<seq<Point>>)
    requires HasCorners(rows) && |rows[0]| >= 2
    requires rows[0][|rows[0]| - 1].lon != rows[0][0].lon
    ensures Apply(GridMapping(rows), (|rows[0]| - 1) as real, 0.0).0 != rows[0][|rows[0]| - 1].lon
    ensures Apply(GridMapping(rows), (|rows[0]| - 1) as real, 0.0).0 ==
      rows[0][|rows[0]| - 1].lon - GridMapping(rows).scaleX
  {
  }

  /** A concrete input: a 1 x 2 grid at longitudes 0 and 1 maps column 1 to longitude 1/2. */
  lemma ScaleFallsShortExample()
    ensures var rows := [[Point(0.0, 0.0, map[]), Point(1.0, 0.0, map[])]];
      Apply(GridMapping(rows), 1.0, 0.0).0 == 0.5
  {
  }

  /** Corrected map: the extents are divided by the number of gaps, `count - 1`. */
  function LatticeMapping(rows: seq<seq<Point>>): (m: Mapping)
    requires HasCorners(rows) && |rows[0]| >= 2 && |rows| >= 2
    ensures m.x0 == rows[0][0].lon && m.y0 == rows[0][0].lat
    ensures m.scaleX * (|rows[0]| - 1) as real == rows[0][|rows[0]| - 1].lon - rows[0][0].lon
    ensures m.scaleY * (|rows| - 1) as real == rows[|rows| - 1][0].lat - rows[0][0].lat
  {
    var lastC := |rows[0]| - 1;
    var lastR := |rows| - 1;
    Mapping(rows[0][0].lon, rows[0][0].lat,
            (rows[0][lastC].lon - rows[0][0].lon) / lastC as real,
            (rows[lastR][0].lat - rows[0][0].lat) / lastR as real)
  }

  /**
   * With the corrected map, the data grid's own corners land on the sampled extent's
   * corners: column `lastC` on the last longitude of the first row and row `lastR` on
   * the latitude of the last row.
   */
  lemma LatticeMappingHitsCorners(rows: seq<seq<Point>>)
    requires HasCorners(rows) && |rows[0]| >= 2 && |rows| >= 2
    ensures Apply(LatticeMapping(rows), 0.0, 0.0) == (rows[0][0].lon, rows[0][0].lat)
    ensures Apply(LatticeMapping(rows), (|rows[0]| - 1) as real, (|rows| - 1) as real) ==
      (rows[0][|rows[0]| - 1].lon, rows[|rows| - 1][0].lat)
  {
    var m := LatticeMapping(rows);
    assert (|rows[0]| - 1) as real * m.scaleX == m.scaleX * (|rows[0]| - 1) as real;
    assert (|rows| - 1) as real * m.scaleY == m.scaleY * (|rows| - 1) as real;
  }
}
