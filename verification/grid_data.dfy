/** The matrix of z-values handed to the contouring engine (`gridData`). */
module GridData {
  import opened Geo

  type Grid = seq<seq<Option<real>>>

  /** Row `r`, column `c` of the grid is the z-value of point `c` of latitude row `r`. */
  function GridOf(rows: seq<seq<Point>>, key: string): Grid {
    seq(|rows|, r requires 0 <= r < |rows| =>
      seq(|rows[r]|, c requires 0 <= c < |rows[r]| => ZValue(rows[r][c], key)))
  }

  /** The nested loop that pushes each row's z-values into a new row of the grid. */
  method BuildGrid(rows: seq<seq<Point>>, key: string) returns (grid: Grid)
    ensures |grid| == |rows|
    ensures forall r :: 0 <= r < |rows| ==> |grid[r]| == |rows[r]|
    ensures forall r, c :: 0 <= r < |rows| && 0 <= c < |rows[r]| ==> grid[r][c] == ZValue(rows[r][c], key)
    ensures grid == GridOf(rows, key)
  {
    grid := [];
    for r := 0 to |rows|
      invariant |grid| == r
      invariant forall i :: 0 <= i < r ==> grid[i] == GridOf(rows, key)[i]
    {
      var row: seq<Option<real>> := [];
      for c := 0 to |rows[r]|
        invariant |row| == c
        invariant forall k :: 0 <= k < c ==> row[k] == ZValue(rows[r][k], key)
      {
        row := row + [ZValue(rows[r][c], key)];
      }
      grid := grid + [row];
    }
  }
}
