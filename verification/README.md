# turf-isobands: the isoband pipeline in Dafny

This project models the exported function of `index.js`. The function takes a
collection of GeoJSON points that carry z-values, the name of the z property and a
list of breaks, and returns one filled-contour polygon per break interval.
The model follows the function step by step:

1. **Grouping** (`grouping.dfy`, `key_order.dfy`). A dictionary keyed by latitude
   collects the points of each latitude in input order. The rows are then read out
   in `Object.keys` order. Latitudes that are array indices (integers from 0 to
   2^32 - 2) come first, in ascending order. All other latitudes follow in order of
   first appearance. Rows of unequal length are accepted, as in the source.
2. **Grid** (`grid_data.dfy`). The grid has one row per latitude row. Cell `[r][c]`
   holds `properties[z]` of point `c` of row `r`. It is `None` (JavaScript
   `undefined`) when the point lacks that property.
3. **Affine map** (`affine.dfy`). The origin is the first point of the first row.
   The width spans the first row, and the height spans the first column from the
   first row to the last. They are divided by the first row's point count and by
   the row count.
4. **Bands** (`bands.dfy`). For each pair of consecutive breaks the contouring
   engine is called with `(grid, lower, upper - lower)`. The engine computes rings
   of `(x, y)` points; each point is handed over as a new two-entry array, so every
   band owns its point arrays exclusively. The band is tagged with the upper break.
5. **Rescale** (`rescale.dfy`). Every point array `[x, y]` of every ring is
   rewritten in place to `[x * scaleX + x0, y * scaleY + y0]`. Three nested
   methods with `modifies` clauses follow the three nested `forEach` calls.
6. **Polygons** (`isobands.dfy`). One `(coords, {z: upper break})` record per band,
   in band order. `Isobands.Isobands` runs the whole pipeline.

The contouring engine (`MarchingSquaresJS.IsoBands`) is an opaque function
parameter, `Bands.Engine`. Coordinates, z-values and breaks are `real`.

## Model

| member | source | states |
|---|---|---|
| `KeyOrder.ObjectKeysPermutes` | index.js:59-61 | `Object.keys` lists every latitude key exactly once, with nothing added and nothing repeated |
| `KeyOrder.ObjectKeysOrder` | index.js:59-61 | array-index latitudes come first in strictly ascending order; the other latitudes follow in insertion order |
| `KeyOrder.ObjectKeysInsertionOrder` | index.js:59-61 | when no latitude is an array index, the row order is the order of first appearance |
| `KeyOrder.SortKeysFacts` | index.js:59-61 | the ascending ordering of index keys keeps the same keys and the same count, and is strictly ascending for distinct keys |
| `Grouping.GroupByLatitude` | index.js:50-61 | the dictionary loop and read-out produce exactly the rows `RowsOf(points)`, one per distinct latitude |
| `Grouping.LatsMembers` | index.js:50-57 | the dictionary keys are distinct, and they are exactly the latitudes that occur in the input |
| `Grouping.RowForSplit` | index.js:51-57 | a row keeps input order: over a concatenation of inputs, the row is the concatenation of the rows |
| `Grouping.RowForMembers` | index.js:51-57 | the row of latitude `l` holds exactly the input points whose latitude is `l` |
| `Grouping.RowsPartition` | index.js:50-61 | every row is non-empty and holds only points of its own latitude; every input point is in exactly one row |
| `Grouping.RowsCoverInput` | index.js:50-61 | the rows together hold as many cells as there are input points |
| `Grouping.FirstRowHead` | index.js:59-61 | the first point of the first row is the first input point of that row's latitude; with no array-index latitude it is the first input point |
| `GridData.BuildGrid` | index.js:76-84 | the grid has one row per latitude row, each as long as its latitude row, and cell `[r][c]` is the z-property of point `c` of row `r` |
| `Affine.GridMapping` | index.js:104-144 | the origin is the first point of the first row; scaleX times the first row's point count is its longitude span; scaleY times the row count is the latitude span of the first column |
| `Affine.ApplyInverse` | index.js:151-152 | with non-zero scales the vertex map is invertible in both directions |
| `Affine.GridCorners` | index.js:104-144 | grid `(0, 0)` maps to the origin; grid `(width, height)` maps to the last longitude of the first row and the latitude of the last row |
| `Affine.ScaleFallsShort` | index.js:143-144 | as written, the last data column maps one column spacing short of the last longitude, whenever the first row has two or more points with different end longitudes |
| `Affine.ScaleFallsShortExample` | index.js:143-144 | for a row at longitudes 0 and 1, column 1 maps to longitude 0.5 |
| `Affine.LatticeMapping` | index.js:143-144 | corrected map: each scale times the number of gaps (`count - 1`) is the extent |
| `Affine.LatticeMappingHitsCorners` | index.js:143-144 | with the corrected map, the data grid's corners `(0, 0)` and `(lastC, lastR)` land on the extent's corners |
| `Bands.EnumerateBands` | index.js:129-139 | there are `breaks.length - 1` bands (none for fewer than two breaks); band `k` holds, in new point arrays `[x, y]`, the engine's rings for `lower = breaks[k]` and `width = breaks[k+1] - breaks[k]`, ring by ring and point by point; its `z` is `breaks[k+1]`; no point array is shared between two places |
| `Bands.BandTags` | index.js:129-139 | the bands' z-values are `breaks[1..]` in order, so increasing breaks give increasing bands |
| `Rescale.RescaleVertexFacts` | index.js:150-153 | a rescaled point keeps its length and its entries after the second; its x and y are the affine image; it can be mapped back |
| `Rescale.OriginVertex` | index.js:148-155 | grid vertex `[0, 0]` becomes `[x0, y0]` |
| `Rescale.RescaleRing` | index.js:150-153 | every point array of a ring is rewritten to its rescaled value; nothing outside the ring's arrays changes |
| `Rescale.RescaleCoords` | index.js:149-154 | every point array of every ring of a band is rescaled; nothing else changes |
| `Rescale.RescaleBands` | index.js:148-155 | every point array of every band is rescaled exactly once; bands, rings, ring lengths and z-values are untouched |
| `Isobands.PlannedMapping` | index.js:104-118 | for non-empty input, the first and last rows have a first point, so the map is defined |
| `Isobands.PlannedOrigin` | index.js:113-114 | grid vertex `[0, 0]` becomes the position of the first input point of the first row's latitude; with no array-index latitude, that is the first input point |
| `Isobands.PolygonsTagged` | index.js:159-163 | one polygon per band, in band order; polygon `k` carries band `k`'s rings and the single property `{[z]: band k's z}` |
| `Isobands.Isobands` | index.js:34-171 | the whole function on non-empty input: one polygon per break interval, in break order; polygon `k` has the single property `{[z]: breaks[k+1]}` and, in new point arrays, the engine's rings for interval `k` over the grid of the latitude rows, with every point `(x, y)` replaced by its image under the map derived from the rows |

## Left out

- `MarchingSquaresJS.IsoBands` (index.js:4, 133) is an opaque function parameter. Its code is not part of this model. It is not assumed to return the empty list for an empty interval, nor to close its rings.
- `turf-polygon` and `turf-featurecollection` (index.js:7-8, 162, 169) are not modelled. Only the `(coords, properties)` record passed to `turf-polygon` is kept. Its ring validation (at least four positions, first equal to last) and the error it throws are not modelled.
- Floating point is not modelled: coordinates, z-values and breaks are `real`, with no rounding, NaN or Infinity.
- The unary `+` coercion of breaks (index.js:131-132, 135-136) is not modelled; breaks are numbers already.
- Property values are `real`; a non-numeric z-property is not modelled. A missing one is `None`.
- Latitudes are dictionary keys through their string form. The model keys by the number itself, which assumes that distinct latitudes have distinct strings.
- Only `coordinates[0]` and `coordinates[1]` of a point are read; further coordinates are not modelled.
- `Isobands.Isobands` requires non-empty input. The source fails at index.js:104 when there are no points.
- The engine's output is modelled as `(x, y)` values, stored by `Bands.NewRing` in a new two-entry array per point. So no point array is shared between two rings or two bands. An engine that returned the same array twice would have it rescaled twice by the source; that aliasing is not modelled.
- `Rescale.RescaleBands` states the new contents of each point array. Band count, ring count, ring length and z-values are unchanged by construction, because bands and rings are immutable sequences in the model; only the point arrays are mutable.
- The console logging and the comments' example grid are not modelled.
- test.js is not modelled. It calls the function with a different argument list and expects line strings.
- Break normalisation (deduplication, replacing a zero break), ring ordering by area, and the interpolated grid mode are not present in index.js. They are not part of this model.

## Findings

| source | as written | input that shows it | evidently intended | confidence | as-written member | corrected member |
|---|---|---|---|---|---|---|
| index.js:143-144 | `scaleX = originalWidth / gridWidth` and `scaleY = originalHeigth / gridHeigth` divide by the point counts | a first row with points at longitudes 0 and 1: the engine's grid column 1 (the last data column) is mapped to longitude 0.5, not 1 | divide by `gridWidth - 1` and `gridHeigth - 1`, so that the last data column and row land on the last longitude and latitude | medium, not executed | `Affine.ScaleFallsShort` | `Affine.LatticeMappingHitsCorners` |

The engine works in grid-index space, where data column `c` sits at `x = c` and the
last data column at `x = count - 1`. The as-written map therefore shrinks every band
towards the origin by a factor of `(count - 1) / count`. The
pipeline model `Isobands.Isobands` keeps the as-written `Affine.GridMapping`,
because it models what `index.js` computes. The corrected `Affine.LatticeMapping`
and its corner property sit beside it. The corrected map needs at least two
columns and two rows; with fewer it would divide by zero.
