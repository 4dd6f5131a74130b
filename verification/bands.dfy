/**
 * The band loop: one call of the contouring engine per pair of consecutive breaks,
 * each result tagged with the upper break.
 */
module Bands {
  import opened GridData

  /** A point `[x, y]` of a ring, in grid-index space, as the engine computes it. */
  type Vertex = (real, real)

  /**
   * The contouring engine `IsoBands(grid, lower, width)`, whose code is not part of
   * this model: any function from a grid, a lower bound and a band width to rings.
   */
  type Engine = (Grid, real, real) -> seq<seq<Vertex>>

  /** A ring as the engine hands it over: a sequence of point arrays, later rewritten in place. */
  type Ring = seq<array<real>>

  /** The record `{coords, z}` pushed for each band. */
  datatype Band = Band(coords: seq<Ring>, z: real)

  /** One band per consecutive pair of breaks; none when there are fewer than two breaks. */
  function BandCount(breaks: seq<real>): nat {
    if |breaks| < 2 then 0 else |breaks| - 1
  }

  /** The engine's rings for band `k`: the interval with lower bound `breaks[k]` and width `breaks[k + 1] - breaks[k]`. */
  function Contour(grid: Grid, breaks: seq<real>, engine: Engine, k: nat): seq<seq<Vertex>>
    requires k < BandCount(breaks)
  {
    engine(grid, breaks[k], breaks[k + 1] - breaks[k])
  }

  /** The z-value of each band, in band order. */
  function Tags(bands: seq<Band>): seq<real> {
    seq(|bands|, k requires 0 <= k < |bands| => bands[k].z)
  }

  ghost function RingArrays(ring: Ring): set<array<real>> {
    set i | 0 <= i < |ring| :: ring[i]
  }

  ghost function CoordsArrays(coords: seq<Ring>): set<array<real>> {
    set r, i | 0 <= r < |coords| && 0 <= i < |coords[r]| :: coords[r][i]
  }

  ghost function VertexArrays(bands: seq<Band>): set<array<real>> {
    set k, r, i | 0 <= k < |bands| && 0 <= r < |bands[k].coords| && 0 <= i < |bands[k].coords[r]| ::
      bands[k].coords[r][i]
  }

  /** Every point array has an x and a y entry, and no point array appears twice in `ring`. */
  predicate RingWellFormed(ring: Ring) {
    (forall i :: 0 <= i < |ring| ==> ring[i].Length >= 2) &&
    (forall i, j :: 0 <= i < |ring| && 0 <= j < |ring| && ring[i] == ring[j] ==> i == j)
  }

  predicate CoordsWellFormed(coords: seq<Ring>) {
    (forall r :: 0 <= r < |coords| ==> RingWellFormed(coords[r])) &&
    (forall r1, i1, r2, i2 ::
      (0 <= r1 < |coords| && 0 <= i1 < |coords[r1]| && 0 <= r2 < |coords| && 0 <= i2 < |coords[r2]| &&
       coords[r1][i1] == coords[r2][i2]) ==> r1 == r2)
  }

  /** Every point array of the bands has an x and a y entry, and none is shared between two places. */
  predicate WellFormed(bands: seq<Band>) {
    (forall k :: 0 <= k < |bands| ==> CoordsWellFormed(bands[k].coords)) &&
    (forall k1, r1, i1, k2, r2, i2 ::
      (0 <= k1 < |bands| && 0 <= r1 < |bands[k1].coords| && 0 <= i1 < |bands[k1].coords[r1]| &&
       0 <= k2 < |bands| && 0 <= r2 < |bands[k2].coords| && 0 <= i2 < |bands[k2].coords[r2]| &&
       bands[k1].coords[r1][i1] == bands[k2].coords[r2][i2]) ==> k1 == k2)
  }

  /** The engine's output for one ring: a new array `[x, y]` per point. */
  method NewRing(values: seq<Vertex>) returns (ring: Ring)
    ensures |ring| == |values| && RingWellFormed(ring)
    ensures forall i :: 0 <= i < |ring| ==> fresh(ring[i]) && ring[i][..] == [values[i].0, values[i].1]
  {
    ring := [];
    for i := 0 to |values|
      invariant |ring| == i && RingWellFormed(ring)
      invariant forall j :: 0 <= j < i ==> fresh(ring[j]) && ring[j][..] == [values[j].0, values[j].1]
    {
      var point := new real[2];
      point[0], point[1] := values[i].0, values[i].1;
      ring := ring + [point];
    }
  }

  /** The rings `coords` hold the engine's points `values`: one array `[x, y]` per point, ring by ring. */
  ghost predicate RingsHold(coords: seq<Ring>, values: seq<seq<Vertex>>)
    reads CoordsArrays(coords)
  {
    |coords| == |values| &&
    (forall r :: 0 <= r < |coords| ==> |coords[r]| == |values[r]|) &&
    (forall r, i :: 0 <= r < |coords| && 0 <= i < |coords[r]| ==>
      coords[r][i][..] == [values[r][i].0, values[r][i].1])
  }

  /** The engine's output for one band: new point arrays for every ring, none shared. */
  method NewRings(values: seq<seq<Vertex>>) returns (coords: seq<Ring>)
    ensures CoordsWellFormed(coords) && fresh(CoordsArrays(coords)) && RingsHold(coords, values)
  {
    coords := [];
    for r := 0 to |values|
      invariant |coords| == r && CoordsWellFormed(coords)
      invariant forall s :: 0 <= s < r ==> |coords[s]| == |values[s]|
      invariant forall s, i :: 0 <= s < r && 0 <= i < |coords[s]| ==>
        fresh(coords[s][i]) && coords[s][i][..] == [values[s][i].0, values[s][i].1]
    {
      var ring := NewRing(values[r]);
      coords := coords + [ring];
    }
  }

  /** The bands hold, in order, the engine's rings for the first `|bands|` intervals, tagged with their upper breaks. */
  ghost predicate HoldContours(bands: seq<Band>, grid: Grid, breaks: seq<real>, engine: Engine)
    reads VertexArrays(bands)
  {
    |bands| <= BandCount(breaks) &&
    forall k :: 0 <= k < |bands| ==>
      bands[k].z == breaks[k + 1] && RingsHold(bands[k].coords, Contour(grid, breaks, engine, k))
  }

  /** Appending the band for the next interval keeps `HoldContours`. */
  lemma HoldContoursSnoc(bands: seq<Band>, band: Band, grid: Grid, breaks: seq<real>, engine: Engine)
    requires HoldContours(bands, grid, breaks, engine) && |bands| < BandCount(breaks)
    requires band.z == breaks[|bands| + 1] && RingsHold(band.coords, Contour(grid, breaks, engine, |bands|))
    ensures HoldContours(bands + [band], grid, breaks, engine)
  {
    var all := bands + [band];
    forall k | 0 <= k < |all|
      ensures all[k].z == breaks[k + 1] && RingsHold(all[k].coords, Contour(grid, breaks, engine, k))
    {
      if k < |bands| {
        assert all[k] == bands[k];
      } else {
        assert all[k] == band;
      }
    }
  }

  /** The point arrays of bands with one more band appended. */
  lemma VertexArraysSnoc(bands: seq<Band>, band: Band)
    ensures VertexArrays(bands + [band]) == VertexArrays(bands) + CoordsArrays(band.coords)
  {
    var all := bands + [band];
    forall a | a in VertexArrays(all) ensures a in VertexArrays(bands) + CoordsArrays(band.coords) {
      var k, r, i :| 0 <= k < |all| && 0 <= r < |all[k].coords| && 0 <= i < |all[k].coords[r]| && a == all[k].coords[r][i];
      if k < |bands| {
        assert all[k] == bands[k];
      } else {
        assert all[k] == band;
      }
    }
    forall a | a in VertexArrays(bands) ensures a in VertexArrays(all) {
      var k, r, i :| 0 <= k < |bands| && 0 <= r < |bands[k].coords| && 0 <= i < |bands[k].coords[r]| && a == bands[k].coords[r][i];
      assert all[k] == bands[k];
    }
    forall a | a in CoordsArrays(band.coords) ensures a in VertexArrays(all) {
      var r, i :| 0 <= r < |band.coords| && 0 <= i < |band.coords[r]| && a == band.coords[r][i];
      assert all[|bands|] == band;
    }
  }

  /** Appending a band whose point arrays are well formed and new keeps the bands well formed. */
  lemma WellFormedSnoc(bands: seq<Band>, band: Band)
    requires WellFormed(bands) && CoordsWellFormed(band.coords)
    requires VertexArrays(bands) !! CoordsArrays(band.coords)
    ensures WellFormed(bands + [band])
  {
    var all := bands + [band];
    assert forall k :: 0 <= k < |bands| ==> all[k] == bands[k];
    assert all[|bands|] == band;
    assert forall k, r, i :: 0 <= k < |bands| && 0 <= r < |bands[k].coords| && 0 <= i < |bands[k].coords[r]| ==>
      bands[k].coords[r][i] in VertexArrays(bands);
    assert forall r, i :: 0 <= r < |band.coords| && 0 <= i < |band.coords[r]| ==>
      band.coords[r][i] in CoordsArrays(band.coords);
    forall k1, r1, i1, k2, r2, i2 |
      0 <= k1 < |all| && 0 <= r1 < |all[k1].coords| && 0 <= i1 < |all[k1].coords[r1]| &&
      0 <= k2 < |all| && 0 <= r2 < |all[k2].coords| && 0 <= i2 < |all[k2].coords[r2]| &&
      all[k1].coords[r1][i1] == all[k2].coords[r2][i2]
      ensures k1 == k2
    {
      if k1 < |bands| && k2 < |bands| {
        assert all[k1] == bands[k1] && all[k2] == bands[k2];
      }
    }
  }

  /**
   * The loop over consecutive breaks: band `k` holds new point arrays with the
   * engine's rings for `[breaks[k], breaks[k + 1]]` and is tagged `breaks[k + 1]`.
   * The loop counts bands, `k = i - 1` for the source's break counter `i`.
   */
  method EnumerateBands(grid: Grid, breaks: seq<real>, engine: Engine) returns (bands: seq<Band>)
    ensures |bands| == BandCount(breaks) && WellFormed(bands) && fresh(VertexArrays(bands))
    ensures forall k :: 0 <= k < |bands| ==>
      bands[k].z == breaks[k + 1] && |bands[k].coords| == |Contour(grid, breaks, engine, k)|
    ensures forall k, r :: 0 <= k < |bands| && 0 <= r < |bands[k].coords| ==>
      |bands[k].coords[r]| == |Contour(grid, breaks, engine, k)[r]|
    ensures forall k, r, i :: 0 <= k < |bands| && 0 <= r < |bands[k].coords| && 0 <= i < |bands[k].coords[r]| ==>
      bands[k].coords[r][i][..] == [Contour(grid, breaks, engine, k)[r][i].0, Contour(grid, breaks, engine, k)[r][i].1]
  {
    bands := [];
    for k := 0 to BandCount(breaks)
      invariant |bands| == k && WellFormed(bands) && fresh(VertexArrays(bands))
      invariant HoldContours(bands, grid, breaks, engine)
    {
      var lowerBand := breaks[k];
      var upperBand := breaks[k + 1];
      var values := engine(grid, lowerBand, upperBand - lowerBand);
      var band := NewRings(values);
      WellFormedSnoc(bands, Band(band, upperBand));
      HoldContoursSnoc(bands, Band(band, upperBand), grid, breaks, engine);
      VertexArraysSnoc(bands, Band(band, upperBand));
      bands := bands + [Band(band, upperBand)];
    }
  }

  /**
   * Bands tagged as the loop tags them carry the breaks after the first, in break
   * order; so with increasing breaks the bands come out in increasing order.
   */
  lemma BandTags(bands: seq<Band>, breaks: seq<real>)
    requires |bands| == BandCount(breaks)
    requires forall k :: 0 <= k < |bands| ==> bands[k].z == breaks[k + 1]
    ensures Tags(bands) == if |breaks| < 2 then [] else breaks[1..]
    ensures (forall i, j :: 0 <= i < j < |breaks| ==> breaks[i] < breaks[j]) ==>
      forall k, l :: 0 <= k < l < |bands| ==> bands[k].z < bands[l].z
  {
  }
}
