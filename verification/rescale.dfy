/**
 * Rewriting every ring vertex of every band, in place, from grid-index space to map
 * space with the affine map.
 */
module Rescale {
  import opened Affine
  import opened Bands

  /** A point array after its first two entries are mapped; any further entries are kept. */
  function RescaleVertex(p: seq<real>, m: Mapping): seq<real>
    requires |p| >= 2
  {
    [p[0] * m.scaleX + m.x0, p[1] * m.scaleY + m.y0] + p[2..]
  }

  /** The inverse of `RescaleVertex`, from map space back to grid-index space. */
  function UnscaleVertex(q: seq<real>, m: Mapping): seq<real>
    requires |q| >= 2 && m.scaleX != 0.0 && m.scaleY != 0.0
  {
    [Unapply(m, q[0], q[1]).0, Unapply(m, q[0], q[1]).1] + q[2..]
  }

  /** The entries of a rescaled vertex, one by one. */
  lemma RescaleVertexImage(p: seq<real>, m: Mapping)
    requires |p| >= 2
    ensures |RescaleVertex(p, m)| == |p|
    ensures RescaleVertex(p, m)[0] == Apply(m, p[0], p[1]).0 && RescaleVertex(p, m)[1] == Apply(m, p[0], p[1]).1
    ensures forall j :: 2 <= j < |p| ==> RescaleVertex(p, m)[j] == p[j]
  {
  }

  /**
   * A rescaled vertex keeps its length and its entries past the second; its first two
   * entries are the affine image of the old ones; with non-zero scales the grid
   * position can be recovered from it.
   */
  lemma RescaleVertexFacts(p: seq<real>, m: Mapping)
    requires |p| >= 2
    ensures |RescaleVertex(p, m)| == |p|
    ensures (RescaleVertex(p, m)[0], RescaleVertex(p, m)[1]) == Apply(m, p[0], p[1])
    ensures RescaleVertex(p, m)[2..] == p[2..]
    ensures m.scaleX != 0.0 && m.scaleY != 0.0 ==> UnscaleVertex(RescaleVertex(p, m), m) == p
  {
    RescaleVertexImage(p, m);
    var q := RescaleVertex(p, m);
    assert q[2..] == p[2..];
    if m.scaleX != 0.0 && m.scaleY != 0.0 {
      ApplyInverse(m, p[0], p[1], 0.0, 0.0);
      assert UnscaleVertex(q, m)[0] == p[0];
      assert UnscaleVertex(q, m)[1] == p[1];
      assert UnscaleVertex(q, m) == [p[0], p[1]] + p[2..];
      assert p == [p[0], p[1]] + p[2..];
    }
  }

  /** The grid origin `[0, 0]` becomes the map's origin `[x0, y0]`. */
  lemma OriginVertex(m: Mapping)
    ensures RescaleVertex([0.0, 0.0], m) == [m.x0, m.y0]
  {
  }

  /** The innermost `forEach`: each point of one ring is rewritten in place. */
  method RescaleRing(ring: Ring, m: Mapping)
    requires RingWellFormed(ring)
    modifies RingArrays(ring)
    ensures forall i :: 0 <= i < |ring| ==> ring[i][..] == RescaleVertex(old(ring[i][..]), m)
  {
    for i := 0 to |ring|
      invariant forall j :: 0 <= j < i ==> ring[j][..] == RescaleVertex(old(ring[j][..]), m)
      invariant forall j :: i <= j < |ring| ==> ring[j][..] == old(ring[j][..])
    {
      var point := ring[i];
      ghost var before := point[..];
      point[0] := point[0] * m.scaleX + m.x0;
      point[1] := point[1] * m.scaleY + m.y0;
      assert point[0] == before[0] * m.scaleX + m.x0 && point[1] == before[1] * m.scaleY + m.y0;
      assert forall j :: 2 <= j < point.Length ==> point[j] == before[j];
      assert point[..] == RescaleVertex(before, m) by {
        var q := RescaleVertex(before, m);
        assert |q| == point.Length;
        forall j | 0 <= j < |q| ensures point[..][j] == q[j] {
          if j >= 2 {
            assert q[j] == before[2..][j - 2];
          }
        }
      }
    }
  }

  /** The middle `forEach`: every ring of one band. */
  method RescaleCoords(coords: seq<Ring>, m: Mapping)
    requires CoordsWellFormed(coords)
    modifies CoordsArrays(coords)
    ensures forall r, i :: 0 <= r < |coords| && 0 <= i < |coords[r]| ==>
      coords[r][i][..] == RescaleVertex(old(coords[r][i][..]), m)
  {
    for r := 0 to |coords|
      invariant forall s, i :: 0 <= s < r && 0 <= i < |coords[s]| ==>
        coords[s][i][..] == RescaleVertex(old(coords[s][i][..]), m)
      invariant forall s, i :: r <= s < |coords| && 0 <= i < |coords[s]| ==>
        coords[s][i][..] == old(coords[s][i][..])
    {
      RescaleRing(coords[r], m);
    }
  }

  /** The outer `forEach`: every band. */
  method RescaleBands(bands: seq<Band>, m: Mapping)
    requires WellFormed(bands)
    modifies VertexArrays(bands)
    ensures forall k, r, i :: 0 <= k < |bands| && 0 <= r < |bands[k].coords| && 0 <= i < |bands[k].coords[r]| ==>
      bands[k].coords[r][i][..] == RescaleVertex(old(bands[k].coords[r][i][..]), m)
  {
    for k := 0 to |bands|
      invariant forall l, r, i :: 0 <= l < k && 0 <= r < |bands[l].coords| && 0 <= i < |bands[l].coords[r]| ==>
        bands[l].coords[r][i][..] == RescaleVertex(old(bands[l].coords[r][i][..]), m)
      invariant forall l, r, i :: k <= l < |bands| && 0 <= r < |bands[l].coords| && 0 <= i < |bands[l].coords[r]| ==>
        bands[l].coords[r][i][..] == old(bands[l].coords[r][i][..])
    {
      RescaleCoords(bands[k].coords, m);
    }
  }
}
