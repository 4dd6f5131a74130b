/**
 * Grouping the input points into latitude rows: a dictionary keyed by latitude
 * collects the points of each latitude in input order, and the rows are then read
 * out in `Object.keys` order.
 */
module Grouping {
  import opened Geo
  import opened KeyOrder

  /** The distinct latitudes of `ps` in order of first appearance: the dictionary's insertion order. */
  function Lats(ps: seq<Point>): seq<real> {
    if ps == [] then []
    else
      var prev := Lats(ps[..|ps| - 1]);
      var l := ps[|ps| - 1].lat;
      if l in prev then prev else prev + [l]
  }

  /** The points of latitude `l`, in input order: what the dictionary holds under key `l`. */
  function RowFor(ps: seq<Point>, l: real): seq<Point> {
    if ps == [] then []
    else RowFor(ps[..|ps| - 1], l) + (if ps[|ps| - 1].lat == l then [ps[|ps| - 1]] else [])
  }

  /** The latitude of each row, in row order. */
  function RowLats(ps: seq<Point>): seq<real> {
    ObjectKeys(Lats(ps))
  }

  /** `pointsByLatitude` after it is turned into an array of rows. */
  function RowsOf(ps: seq<Point>): seq<seq<Point>> {
    var keys := RowLats(ps);
    seq(|keys|, r requires 0 <= r < |keys| => RowFor(ps, keys[r]))
  }

  /** The number of points over all rows. */
  function TotalCells(rows: seq<seq<Point>>): nat {
    if rows == [] then 0 else TotalCells(rows[..|rows| - 1]) + |rows[|rows| - 1]|
  }

  /**
   * The grouping loop and the read-out of the rows. `groups` is the dictionary and
   * `keys` its keys in insertion order.
   */
  method GroupByLatitude(points: seq<Point>) returns (rows: seq<seq<Point>>)
    ensures rows == RowsOf(points)
    ensures |rows| == |Lats(points)|
  {
    var groups: map<real, seq<Point>> := map[];
    var keys: seq<real> := [];
    for j := 0 to |points|
      invariant keys == Lats(points[..j])
      invariant forall l :: l in groups <==> l in keys
      invariant forall l :: l in groups ==> groups[l] == RowFor(points[..j], l)
    {
      var p := points[j];
      assert points[..j + 1][..j] == points[..j];
      if p.lat !in groups {
        groups := groups[p.lat := []];
        keys := keys + [p.lat];
        RowForAbsent(points[..j], p.lat);
      }
      groups := groups[p.lat := groups[p.lat] + [p]];
    }
    assert points[..|points|] == points;
    assert keys == Lats(points);
    LatsMembers(points);
    assert Distinct(keys);
    ObjectKeysPermutes(keys);
    var order := ObjectKeys(keys);
    rows := [];
    for r := 0 to |order|
      invariant |rows| == r
      invariant forall i :: 0 <= i < r ==> rows[i] == RowFor(points, order[i])
    {
      assert order[r] in order;
      assert order[r] in keys;
      rows := rows + [groups[order[r]]];
    }
  }

  /** A latitude the dictionary does not hold yet has no points so far. */
  lemma {:induction false} RowForAbsent(ps: seq<Point>, l: real)
    requires l !in Lats(ps)
    ensures RowFor(ps, l) == []
  {
    if ps != [] {
      RowForAbsent(ps[..|ps| - 1], l);
    }
  }

  /** Every latitude of the input appears exactly once among the dictionary keys. */
  lemma {:induction false} LatsMembers(ps: seq<Point>)
    ensures Distinct(Lats(ps))
    ensures forall l :: l in Lats(ps) <==> exists p :: p in ps && p.lat == l
  {
    if ps != [] {
      var init := ps[..|ps| - 1];
      LatsMembers(init);
      assert ps == init + [ps[|ps| - 1]];
      var l := ps[|ps| - 1].lat;
      if l !in Lats(init) {
        DistinctSnoc(Lats(init), l);
      }
      forall x | x in Lats(ps) ensures exists p :: p in ps && p.lat == x {
        if x in Lats(init) {
          var p :| p in init && p.lat == x;
          assert p in ps;
        } else {
          assert ps[|ps| - 1] in ps;
        }
      }
      forall x | (exists p :: p in ps && p.lat == x) ensures x in Lats(ps) {
        var p :| p in ps && p.lat == x;
        if p in init {
          assert x in Lats(init);
        }
      }
    }
  }

  lemma DistinctSnoc(s: seq<real>, x: real)
    requires Distinct(s) && x !in s
    ensures Distinct(s + [x])
  {
  }

  /** Grouping preserves input order: the row of `l` over a concatenation is the concatenation of the rows. */
  lemma {:induction false} RowForSplit(ps: seq<Point>, qs: seq<Point>, l: real)
    ensures RowFor(ps + qs, l) == RowFor(ps, l) + RowFor(qs, l)
  {
    if qs == [] {
      assert ps + qs == ps;
    } else {
      var q := qs[|qs| - 1];
      RowForSplit(ps, qs[..|qs| - 1], l);
      assert (ps + qs)[..|ps + qs| - 1] == ps + qs[..|qs| - 1];
    }
  }

  /** The row of `l` holds exactly the input points of latitude `l`. */
  lemma {:induction false} RowForMembers(ps: seq<Point>, l: real)
    ensures forall p :: p in RowFor(ps, l) <==> p in ps && p.lat == l
  {
    if ps != [] {
      var init := ps[..|ps| - 1];
      RowForMembers(init, l);
      assert ps == init + [ps[|ps| - 1]];
    }
  }

  /**
   * The first point of the row of `l` is the first input point of latitude `l`.
   */
  lemma RowForHead(ps: seq<Point>, l: real, i: nat)
    requires i < |ps| && ps[i].lat == l
    requires forall j :: 0 <= j < i ==> ps[j].lat != l
    ensures |RowFor(ps, l)| > 0 && RowFor(ps, l)[0] == ps[i]
  {
    assert ps == ps[..i] + ([ps[i]] + ps[i + 1..]);
    RowForSplit(ps[..i], [ps[i]] + ps[i + 1..], l);
    RowForSplit([ps[i]], ps[i + 1..], l);
    RowForNone(ps[..i], l);
    assert RowFor([ps[i]], l) == [ps[i]] by {
      assert [ps[i]][..0] == [];
    }
  }

  lemma {:induction false} RowForNone(ps: seq<Point>, l: real)
    requires forall j :: 0 <= j < |ps| ==> ps[j].lat != l
    ensures RowFor(ps, l) == []
  {
    if ps != [] {
      RowForNone(ps[..|ps| - 1], l);
    }
  }

  /** The number of points in the rows for the keys `keys`. */
  function CellsFor(ps: seq<Point>, keys: seq<real>): nat {
    if keys == [] then 0 else CellsFor(ps, keys[..|keys| - 1]) + |RowFor(ps, keys[|keys| - 1])|
  }

  /** The number of input points whose latitude is one of `keys`. */
  function CountIn(ps: seq<Point>, keys: seq<real>): nat {
    if ps == [] then 0
    else CountIn(ps[..|ps| - 1], keys) + (if ps[|ps| - 1].lat in keys then 1 else 0)
  }

  /** Over repetition-free keys, each key matches the latitude `x` at most once. */
  lemma {:induction false} CellsForSnoc(ps: seq<Point>, p: Point, keys: seq<real>)
    requires Distinct(keys)
    ensures CellsFor(ps + [p], keys) == CellsFor(ps, keys) + (if p.lat in keys then 1 else 0)
  {
    if keys != [] {
      var init := keys[..|keys| - 1];
      var k := keys[|keys| - 1];
      assert Distinct(init);
      CellsForSnoc(ps, p, init);
      assert (ps + [p])[..|ps + [p]| - 1] == ps;
      assert keys == init + [k];
      assert p.lat in keys <==> p.lat in init || p.lat == k;
      assert k !in init by {
        forall i | 0 <= i < |init| ensures init[i] != k {
          assert init[i] == keys[i];
        }
      }
    }
  }

  /** Every point counted once: the rows for repetition-free keys hold the points whose latitude is a key. */
  lemma {:induction false} CellsForCount(ps: seq<Point>, keys: seq<real>)
    requires Distinct(keys)
    ensures CellsFor(ps, keys) == CountIn(ps, keys)
  {
    if ps == [] {
      CellsForEmpty(keys);
    } else {
      var init := ps[..|ps| - 1];
      CellsForCount(init, keys);
      assert ps == init + [ps[|ps| - 1]];
      CellsForSnoc(init, ps[|ps| - 1], keys);
    }
  }

  lemma {:induction false} CellsForEmpty(keys: seq<real>)
    ensures CellsFor([], keys) == 0
  {
    if keys != [] {
      CellsForEmpty(keys[..|keys| - 1]);
    }
  }

  lemma {:induction false} CountInAll(ps: seq<Point>, keys: seq<real>)
    requires forall p :: p in ps ==> p.lat in keys
    ensures CountIn(ps, keys) == |ps|
  {
    if ps != [] {
      var init := ps[..|ps| - 1];
      assert forall p :: p in init ==> p in ps;
      CountInAll(init, keys);
      assert ps[|ps| - 1] in ps;
    }
  }

  lemma {:induction false} TotalCellsIsCellsFor(ps: seq<Point>, keys: seq<real>)
    ensures TotalCells(seq(|keys|, r requires 0 <= r < |keys| => RowFor(ps, keys[r]))) == CellsFor(ps, keys)
  {
    if keys != [] {
      var init := keys[..|keys| - 1];
      TotalCellsIsCellsFor(ps, init);
      var rows := seq(|keys|, r requires 0 <= r < |keys| => RowFor(ps, keys[r]));
      assert rows[..|rows| - 1] == seq(|init|, r requires 0 <= r < |init| => RowFor(ps, init[r]));
    }
  }

  /** No point is lost or duplicated: the rows hold as many cells as there are input points. */
  lemma RowsCoverInput(ps: seq<Point>)
    ensures TotalCells(RowsOf(ps)) == |ps|
  {
    LatsMembers(ps);
    ObjectKeysPermutes(Lats(ps));
    TotalCellsIsCellsFor(ps, RowLats(ps));
    CellsForCount(ps, RowLats(ps));
    forall p | p in ps ensures p.lat in RowLats(ps) {
      assert p.lat in Lats(ps);
    }
    CountInAll(ps, RowLats(ps));
  }

  /**
   * Each input point lies in the row of its own latitude and in no other row; every
   * row is non-empty and holds only points of its latitude.
   */
  lemma RowsPartition(ps: seq<Point>)
    ensures |RowsOf(ps)| == |RowLats(ps)|
    ensures Distinct(RowLats(ps))
    ensures forall r :: 0 <= r < |RowsOf(ps)| ==> |RowsOf(ps)[r]| > 0
    ensures forall r, p :: 0 <= r < |RowsOf(ps)| && p in RowsOf(ps)[r] ==> p in ps && p.lat == RowLats(ps)[r]
    ensures forall p :: p in ps ==> exists r :: 0 <= r < |RowsOf(ps)| && p in RowsOf(ps)[r]
    ensures forall p, r1, r2 ::
      (0 <= r1 < |RowsOf(ps)| && 0 <= r2 < |RowsOf(ps)| && p in RowsOf(ps)[r1] && p in RowsOf(ps)[r2]) ==> r1 == r2
  {
    var keys := RowLats(ps);
    var rows := RowsOf(ps);
    LatsMembers(ps);
    ObjectKeysPermutes(Lats(ps));
    forall r | 0 <= r < |rows| ensures |rows[r]| > 0 && forall p :: p in rows[r] <==> p in ps && p.lat == keys[r] {
      RowForMembers(ps, keys[r]);
      assert keys[r] in Lats(ps);
      var p :| p in ps && p.lat == keys[r];
      assert p in rows[r];
    }
    forall p | p in ps ensures exists r :: 0 <= r < |rows| && p in rows[r] {
      assert p.lat in keys;
      var r :| 0 <= r < |keys| && keys[r] == p.lat;
      assert p in rows[r];
    }
  }

  /**
   * The first point of the first row is the first input point of the first row's
   * latitude; when no latitude is an array index it is the first input point.
   */
  lemma FirstRowHead(ps: seq<Point>)
    requires |ps| > 0
    ensures |RowsOf(ps)| > 0 && |RowsOf(ps)[0]| > 0
    ensures exists i :: (0 <= i < |ps| && RowsOf(ps)[0][0] == ps[i] && ps[i].lat == RowLats(ps)[0] &&
      forall j :: 0 <= j < i ==> ps[j].lat != RowLats(ps)[0])
    ensures (forall i :: 0 <= i < |ps| ==> !IsArrayIndex(ps[i].lat)) ==> RowsOf(ps)[0][0] == ps[0]
  {
    RowsPartition(ps);
    LatsMembers(ps);
    ObjectKeysPermutes(Lats(ps));
    assert ps[0] in ps;
    var l := RowLats(ps)[0];
    assert l in RowLats(ps);
    var i := FirstWith(ps, l);
    RowForHead(ps, l, i);
    if forall i :: 0 <= i < |ps| ==> !IsArrayIndex(ps[i].lat) {
      LatsHead(ps);
      forall k | 0 <= k < |Lats(ps)| ensures !IsArrayIndex(Lats(ps)[k]) {
        assert Lats(ps)[k] in Lats(ps);
        var p :| p in ps && p.lat == Lats(ps)[k];
      }
      ObjectKeysInsertionOrder(Lats(ps));
      RowForHead(ps, ps[0].lat, 0);
    }
  }

  /** The index of the first point of latitude `l`. */
  lemma FirstWith(ps: seq<Point>, l: real) returns (i: nat)
    requires exists p :: p in ps && p.lat == l
    ensures i < |ps| && ps[i].lat == l && forall j :: 0 <= j < i ==> ps[j].lat != l
  {
    var p :| p in ps && p.lat == l;
    var k :| 0 <= k < |ps| && ps[k] == p;
    i := 0;
    while ps[i].lat != l
      invariant i <= k
      invariant forall j :: 0 <= j < i ==> ps[j].lat != l
      decreases k - i
    {
      i := i + 1;
    }
  }

  /** The first dictionary key is the first point's latitude. */
  lemma {:induction false} LatsHead(ps: seq<Point>)
    requires |ps| > 0
    ensures |Lats(ps)| > 0 && Lats(ps)[0] == ps[0].lat
  {
    if |ps| > 1 {
      var init := ps[..|ps| - 1];
      LatsHead(init);
      assert init[0] == ps[0];
    } else {
      assert ps[..0] == [];
    }
  }
}
