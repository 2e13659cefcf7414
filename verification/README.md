# Shape geometry of the CSV shape calculator

The program reads a CSV file of shapes one line at a time. Field 0 of each row is a shape
id and field 1 is a tag. The tag selects one of five shapes: `Circle`, `Ellipse`,
`Polygon`, `Square` or `Equilateral Triangle`. The program builds that shape from the
numeric fields of the row and writes `id, tag, area, perimeter` to the output file.

This project models that computation in Dafny:

- `numerics.dfy` (`Numerics`) holds the .NET primitives the program calls. `Math.PI`,
  `Math.Sqrt` and `Convert.ToDouble` are fields of a `Lib` record. Everywhere, the model
  assumes only that pi is positive and that a square root is never negative. The
  round-trip lemmas about generated polygon rows add one hypothesis of their own: each
  coordinate written into the row parses back to itself.
  This module also models C#'s truncating integer division by 4 and gives a `Result`
  type for the places where the program throws.
- `formulas.dfy` (`Formulas`) holds the closed-form area and perimeter of `Circle`,
  `Ellipse` and `Uniform`. A `Uniform` is a square when `option == 0` and an equilateral
  triangle otherwise.
- `polygons.dfy` (`Polygons`) holds `Polygon.area` and `Polygon.permimeter` as loops
  over the vertex arrays. Each loop is proved equal to a cyclic edge sum: the shoelace
  sum and the sum of edge lengths. The module proves what those sums promise. Reversing
  the vertex order negates the area and keeps the perimeter. Rotating the vertex order
  changes neither. The perimeter is never negative. The w-by-h rectangle has shoelace
  sum 2wh.
- `decoder.dfy` (`RowDecoder`) holds `Polygon.SetSize` and `Polygon.BuildXYCoord`. These
  turn a split row into vertex arrays: vertex k has its x at field 3 + 4k and its y at
  field 5 + 4k.
- `dispatch.dfy` (`Dispatch`) holds one iteration of `Main`'s loop as the pure function
  `ComputeRow`. It maps a split row to the output row, or to the index of the missing
  field whose read throws.

`ComputeRow` follows the program as written. That includes the polygon decoding defect
described under "## Findings". The corrected decoder `RowDecoder.IntendedCoords` is
proved to invert the row layout.

## Model

| member | source | states |
|---|---|---|
| Numerics.TruncDiv4 | ConsoleApp1/Program.cs:91 | C#'s `(pts-2)/4` on `int` rounds toward zero: for a non-negative dividend the quotient q has 4q <= a < 4q+4; for a negative dividend, 4q-4 < a <= 4q <= 0 |
| RowDecoder.SetSize | ConsoleApp1/Program.cs:89-92 | numpoints = (pts-2)/4 truncated: 4n <= pts-2 < 4n+4 when pts >= 2, the mirrored bound below 2, and numpoints is non-negative exactly when pts >= -1 |
| RowDecoder.BuildXYCoord | ConsoleApp1/Program.cs:133-157 | the two stride-4 loops: xcoord[k] is field 3+4k when 4k+7 < L and 0 otherwise; ycoord[k] is field 5+4k when 4k+9 < L and 0 otherwise; the arrays have numpoints slots; it throws exactly when numpoints < 0 (array creation) or 4·numpoints+7 < L (x store out of range) |
| RowDecoder.DerivedSizeInBounds | ConsoleApp1/Program.cs:251-252 | with numpoints = SetSize(L), as Main computes it, every slot either loop writes is in range, so decoding never throws |
| RowDecoder.UnfilledSlots | ConsoleApp1/Program.cs:138-155 | with n = SetSize(L) > 0, vertices 0..n-2 are read from their fields; the last y slot is never written; the last x slot is written iff L mod 4 is 0 or 1, and stays 0 when L mod 4 = 2 |
| RowDecoder.PolygonRow | ConsoleApp1/Program.cs:138-155 | the row layout the decoder expects: id, "Polygon", then one (label, x, label, y) block per vertex, so the row has 2+4n fields with x at 3+4k and y at 5+4k |
| RowDecoder.AsWrittenDropsLastVertex | ConsoleApp1/Program.cs:138-155 | decoding a well-formed row of n > 0 vertices, whose coordinates parse back to themselves, returns the first n-1 vertices followed by (0, 0) |
| RowDecoder.IntendedCoords | ConsoleApp1/Program.cs:135-155 | the evidently intended decoding: numpoints slots, x from field 3+4k and y from field 5+4k |
| RowDecoder.IntendedCoordsDefined | ConsoleApp1/Program.cs:89-92 | the derived size always admits the intended decoding: it is non-negative, and 2+4n fields are present when n > 0 |
| RowDecoder.IntendedRoundTrip | ConsoleApp1/Program.cs:133-157 | the intended decoding inverts PolygonRow: SetSize recovers the vertex count, and every vertex whose coordinates parse back to themselves comes back, the last one included |
| Polygons.Area | ConsoleApp1/Program.cs:93-110 | the loop, which closes the last vertex back to vertex 0, computes the cyclic shoelace sum Σ (x_i·y_{i+1} − y_i·x_{i+1}) with indices mod n |
| Polygons.Perimeter | ConsoleApp1/Program.cs:112-131 | the loop computes the cyclic sum of Euclidean edge lengths, the last edge closing back to vertex 0 |
| Polygons.CyclicIsClosed | ConsoleApp1/Program.cs:96-107 | the index-mod-n loop sum equals the structural sum: consecutive edges plus the closing edge from the last vertex to the first |
| Polygons.ShoelaceReverse | ConsoleApp1/Program.cs:93-110 | listing the vertices in reverse order negates the shoelace sum, so orientation only flips the sign of the area |
| Polygons.ShoelaceRotate | ConsoleApp1/Program.cs:93-110 | starting the vertex list at another vertex leaves the shoelace sum unchanged |
| Polygons.ShoelaceDegenerate | ConsoleApp1/Program.cs:93-110 | with at most two vertices the shoelace sum is 0: no vertices, one vertex closed onto itself, or an edge traversed both ways |
| Polygons.PerimeterReverse | ConsoleApp1/Program.cs:112-131 | the perimeter does not depend on the direction in which the vertices are listed |
| Polygons.PerimeterRotate | ConsoleApp1/Program.cs:112-131 | the perimeter does not depend on which vertex the list starts at |
| Polygons.DistanceSymmetric | ConsoleApp1/Program.cs:121-126 | an edge has the same length read in either direction |
| Polygons.PerimeterNonNegative | ConsoleApp1/Program.cs:112-131 | the perimeter is never negative, and it is 0 with no vertices |
| Polygons.RectangleShoelace | ConsoleApp1/Program.cs:93-110 | the counter-clockwise w-by-h rectangle has shoelace sum 2wh, which Main halves to the area wh |
| Polygons.TriangleShoelace | ConsoleApp1/Program.cs:93-110 | the rectangle with its last corner moved to (0,0) has shoelace sum wh |
| Polygons.RectanglePerimeter | ConsoleApp1/Program.cs:112-131 | given sqrt(w²) = w and sqrt(h²) = h, the w-by-h rectangle has perimeter 2w + 2h |
| Polygons.UnitSquareShoelace | ConsoleApp1/Program.cs:93-110 | the unit square (0,0),(1,0),(1,1),(0,1) has shoelace sum 2, so area 1 once halved |
| Polygons.UnitSquarePerimeter | ConsoleApp1/Program.cs:112-131 | given sqrt(1) = 1, the unit square has perimeter 4 |
| Formulas.CircleArea | ConsoleApp1/Program.cs:35-39 | the area pi·r² is never negative |
| Formulas.CirclePerimeter | ConsoleApp1/Program.cs:41-45 | 2·pi·r is non-negative exactly when r is, and 0 exactly when r is |
| Formulas.CirclePerimeterAreaRatio | ConsoleApp1/Program.cs:35-45 | r·P = 2·A ties the two circle formulas together |
| Formulas.CircleScaling | ConsoleApp1/Program.cs:35-45 | scaling the radius by k scales the area by k² and the perimeter by k |
| Formulas.EllipseArea | ConsoleApp1/Program.cs:62-65 | pi·r1·r2 is non-negative exactly when r1·r2 is |
| Formulas.EllipsePerimeter | ConsoleApp1/Program.cs:67-71 | for non-negative radii, Ramanujan's approximation never exceeds 3·pi·(r1 + r2); its value is further characterised by EllipseSymmetric and EllipseWithEqualRadiiIsCircle |
| Formulas.EllipseSymmetric | ConsoleApp1/Program.cs:62-71 | neither the area nor Ramanujan's perimeter depends on the order of the two radii |
| Formulas.EllipseWithEqualRadiiIsCircle | ConsoleApp1/Program.cs:35-71 | an ellipse with r1 = r2 = r >= 0 has the circle's area, and also its perimeter given sqrt((4r)²) = 4r |
| Formulas.UniformArea | ConsoleApp1/Program.cs:168-178 | the area is never negative, for either option |
| Formulas.UniformPerimeter | ConsoleApp1/Program.cs:180-190 | the perimeter is 4·side when option is 0 and 3·side for every other option, so it is non-negative exactly when the side is |
| Formulas.NonzeroOptionIsTriangle | ConsoleApp1/Program.cs:170-188 | every option other than 0 gives the same area and perimeter as option 1, the triangle |
| Formulas.SquareAreaFromPerimeter | ConsoleApp1/Program.cs:168-190 | for option 0, P² = 16·A, so area side² and perimeter 4·side |
| Formulas.TriangleAreaFromPerimeter | ConsoleApp1/Program.cs:168-190 | for option 1, sqrt(3)·P² = 36·A, so area (sqrt 3 / 4)·side² and perimeter 3·side |
| Dispatch.KindOf | ConsoleApp1/Program.cs:231-273 | a tag selects the case whose label it equals; `None` (the `default` case) exactly when it matches no label |
| Dispatch.KindOfTag | ConsoleApp1/Program.cs:233-263 | each case label selects its own case, so no two cases share a label |
| Dispatch.FirstMissing | ConsoleApp1/Program.cs:235-266 | finds the first field a case reads that is past the row's end: every earlier field is present and that one is absent |
| Dispatch.ComputeRow | ConsoleApp1/Program.cs:223-275 | a row of fewer than 2 fields throws at the first absent index; an unknown tag gives area 0 and perimeter 0; id and tag are copied to the output; a failure always names an index past the row's end; a "Polygon" row never throws |
| Dispatch.RowFailsOnFirstMissingField | ConsoleApp1/Program.cs:233-269 | a recognised row throws exactly when a field its case reads is absent, and the error names the first absent field in evaluation order |
| Dispatch.AllFieldsPresent | ConsoleApp1/Program.cs:235-266 | a row that holds every field of its case is missing none |
| Dispatch.RowMeasured | ConsoleApp1/Program.cs:231-275 | a recognised row that holds every field of its case outputs that case's (area, perimeter) |
| Dispatch.SquareRow | ConsoleApp1/Program.cs:256-262 | "Square" passes option 0 and reads the side from field 7, giving area side² and perimeter 4·side |
| Dispatch.TriangleRow | ConsoleApp1/Program.cs:263-269 | "Equilateral Triangle" passes option 1 and reads the side from field 7, giving area (sqrt 3 / 4)·side² and perimeter 3·side |
| Dispatch.CircleRow | ConsoleApp1/Program.cs:233-241 | "Circle" reads the radius from field 7, giving area pi·r² and perimeter 2·pi·r |
| Dispatch.EllipseRow | ConsoleApp1/Program.cs:242-248 | "Ellipse" reads r1 from field 7 and r2 from field 9, giving area pi·r1·r2 and Ramanujan's perimeter of (r1, r2) |
| Dispatch.PolygonRowMeasures | ConsoleApp1/Program.cs:249-255 | "Polygon" never throws; it reports half the shoelace sum of the decoded vertices and their non-negative perimeter |
| Dispatch.RectangleRowAsWritten | ConsoleApp1/Program.cs:249-255 | as written, a well-formed row for the w-by-h rectangle, with coordinates that parse back to themselves, reports area wh/2 instead of wh |
| Dispatch.RectangleRowIntended | ConsoleApp1/Program.cs:249-255 | with the intended decoding, the same rectangle row has area wh |

## Left out

- Files and the console: opening `ShapeList2.csv`, deleting and recreating `output.csv`, `Console.WriteLine`, and writing and flushing each output line. `ComputeRow` returns the output row instead of formatting it.
- Splitting a line on `,`: the model starts from the already split row.
- `Convert.ToDouble` is a total function of the field text. Its `FormatException` on malformed text is not modelled, and neither are culture-dependent parsing or `float.ToString` formatting.
- Single-precision floating point: every `(float)` cast and `float` operation is exact real arithmetic here. Rounding, overflow to infinity and NaN are not modelled.
- `Math.PI` and `Math.Sqrt` are uninterpreted apart from pi > 0 and sqrt(x) >= 0 for x >= 0. Lemmas that need a particular square root take it as a hypothesis: `RectanglePerimeter`, `UnitSquarePerimeter` and `EllipseWithEqualRadiiIsCircle`.
- Formulas.EllipsePerimeter: its contract gives only the upper bound 3·pi·(r1 + r2) for non-negative radii, with symmetry and the equal-radii case proved as lemmas. With an uninterpreted square root, no lower bound or sign holds.
- How the program's own numbers are written into a row is not modelled. The lemmas about generated rows take the formatting as a parameter `show`, and they require that each coordinate of the polygon parses back to itself (`RowDecoder.ShowRoundTrips`).
- The `setUp` methods and the centre, radius, side and orientation fields: they only store their arguments. The centre and orientation are never used in any formula. Each formula takes its parameters directly.
- The `counter` class and the `Shape` interface: `counter` is never used by `Main`, and the interface only declares `area` and `permimeter`.
- The `geoprop` list: ids are added to it but it is never read.
- A polygon centroid or an orientation check: the program computes neither.

## Findings

| source | as written | input that shows it | evidently intended | confidence | as-written member | corrected member |
|---|---|---|---|---|---|---|
| ConsoleApp1/Program.cs:138-155 | both loops of `BuildXYCoord` run while `i + 4 < values.Length`, so field 5+4(n-1), the last y value, is never read. For a row of exactly 2+4n fields the last x value is never read either, and the last vertex stays (0, 0) | the unit square row `id,Polygon,x,0,y,0,x,1,y,0,x,1,y,1,x,0,y,1` (18 fields) decodes to (0,0),(1,0),(1,1),(0,0) and reports area 0.5 instead of 1 | fill every slot k < numpoints, x from field 3+4k and y from field 5+4k; for example, loop guards `i + 2 < L` for x and `i < L` for y | high (proved; not executed) | RowDecoder.AsWrittenDropsLastVertex | RowDecoder.IntendedRoundTrip |
