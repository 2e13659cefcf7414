/**
 * The per-row computation of Main: field 1 of a split CSV row selects a case of the
 * `switch`, the case reads its numeric fields, builds the shape and computes its area and
 * perimeter; an unrecognised tag leaves both at their initial 0. File and console I/O
 * around it are not modelled.
 */
module Dispatch {
  import opened Numerics
  import opened Formulas
  import opened Polygons
  import opened RowDecoder

  datatype ShapeKind = Circle | Ellipse | Polygon | Square | EquilateralTriangle

  /** The output row of line 275: id and tag copied from the input, then area and perimeter. */
  datatype RowOut = RowOut(id: string, shape: string, area: real, perimeter: real)

  /** Reading a field past the end of the row throws; `index` is the field read. */
  datatype RowError = MissingField(index: nat)

  /** The string a case label of the switch matches. */
  function Tag(kind: ShapeKind): string
  {
    match kind
    case Circle => "Circle"
    case Ellipse => "Ellipse"
    case Polygon => "Polygon"
    case Square => "Square"
    case EquilateralTriangle => "Equilateral Triangle"
  }

  /** The case of the switch a tag selects; `None` is the `default` case. */
  function KindOf(tag: string): (k: Option<ShapeKind>)
    ensures k.Some? ==> Tag(k.value) == tag
    ensures k.None? ==> forall kind: ShapeKind :: Tag(kind) != tag
  {
    if tag == "Circle" then Some(Circle)
    else if tag == "Ellipse" then Some(Ellipse)
    else if tag == "Polygon" then Some(Polygon)
    else if tag == "Square" then Some(Square)
    else if tag == "Equilateral Triangle" then Some(EquilateralTriangle)
    else None
  }

  /** Each tag selects its own case: no two cases share a label. */
  lemma KindOfTag(kind: ShapeKind)
    ensures KindOf(Tag(kind)) == Some(kind)
  {
  }

  /**
   * The fields each case converts with Convert.ToDouble, in evaluation order: center x and
   * y (3, 5), then the size parameter(s) (7, and 9 for the ellipse). The polygon case reads
   * only fields below the row length.
   */
  function FieldsRead(kind: ShapeKind): seq<nat>
  {
    match kind
    case Circle => [3, 5, 7]
    case Ellipse => [3, 5, 7, 9]
    case Polygon => []
    case Square => [3, 5, 7]
    case EquilateralTriangle => [3, 5, 7]
  }

  /** Position of the first field in `fields` that a row of length `len` lacks, or |fields| if none. */
  function FirstMissing(fields: seq<nat>, len: nat): (i: nat)
    ensures i <= |fields|
    ensures forall j :: 0 <= j < i ==> fields[j] < len
    ensures i < |fields| ==> fields[i] >= len
  {
    if |fields| == 0 || fields[0] >= len then 0 else 1 + FirstMissing(fields[1..], len)
  }

  /** Field i converted to a number. */
  function Num(lib: MathLib, values: seq<string>, i: nat): real
    requires i < |values|
  {
    lib.toDouble(values[i])
  }

  /** The vertices the polygon case builds: SetSize(values.Length), then BuildXYCoord(values). */
  function PolygonVertices(lib: MathLib, values: seq<string>): seq<Point>
  {
    DerivedSizeInBounds(lib, values);
    var c := DecodeCoords(lib, values, SetSize(|values|)).value;
    Vertices(c.xcoord, c.ycoord)
  }

  /** (area, perimeter) of one case, once every field it reads is present. */
  function Measure(lib: MathLib, kind: ShapeKind, values: seq<string>): (real, real)
    requires forall j :: 0 <= j < |FieldsRead(kind)| ==> FieldsRead(kind)[j] < |values|
  {
    match kind
    case Circle =>
      assert FieldsRead(kind)[2] < |values|;
      var radius := Num(lib, values, 7);
      (CircleArea(lib, radius), CirclePerimeter(lib, radius))
    case Ellipse =>
      assert FieldsRead(kind)[3] < |values|;
      var r1, r2 := Num(lib, values, 7), Num(lib, values, 9);
      (EllipseArea(lib, r1, r2), EllipsePerimeter(lib, r1, r2))
    case Polygon =>
      var vs := PolygonVertices(lib, values);
      (ShoelaceSum(vs) / 2.0, PerimeterSum(lib, vs))
    case Square =>
      assert FieldsRead(kind)[2] < |values|;
      var side := Num(lib, values, 7);
      (UniformArea(lib, 0, side), UniformPerimeter(0, side))
    case EquilateralTriangle =>
      assert FieldsRead(kind)[2] < |values|;
      var side := Num(lib, values, 7);
      (UniformArea(lib, 1, side), UniformPerimeter(1, side))
  }

  /** One iteration of Main's loop, from the split row to the output row. */
  function ComputeRow(lib: MathLib, values: seq<string>): (r: Result<RowOut, RowError>)
    ensures |values| < 2 ==> r == Failure(MissingField(|values|))
    ensures |values| >= 2 && KindOf(values[1]).None? ==> r == Success(RowOut(values[0], values[1], 0.0, 0.0))
    ensures r.Success? ==> r.value.id == values[0] && r.value.shape == values[1]
    ensures r.Failure? ==> r.error.index >= |values|
    ensures |values| >= 2 && values[1] == "Polygon" ==> r.Success?
  {
    if |values| < 2 then Failure(MissingField(|values|))
    else match KindOf(values[1])
      case None => Success(RowOut(values[0], values[1], 0.0, 0.0))
      case Some(kind) =>
        var fields := FieldsRead(kind);
        var i := FirstMissing(fields, |values|);
        if i < |fields| then Failure(MissingField(fields[i]))
        else
          var (a, p) := Measure(lib, kind, values);
          Success(RowOut(values[0], values[1], a, p))
  }

  /**
   * A row fails exactly when it lacks a field its case reads, and the failure names the
   * first such field in evaluation order.
   */
  lemma RowFailsOnFirstMissingField(lib: MathLib, values: seq<string>, kind: ShapeKind)
    requires |values| >= 2 && values[1] == Tag(kind)
    ensures ComputeRow(lib, values).Failure? <==> exists j :: 0 <= j < |FieldsRead(kind)| && FieldsRead(kind)[j] >= |values|
    ensures ComputeRow(lib, values).Failure? ==>
      var f := ComputeRow(lib, values).error.index;
      f in FieldsRead(kind) && forall j :: 0 <= j < |FieldsRead(kind)| && FieldsRead(kind)[j] < f ==> FieldsRead(kind)[j] < |values|
  {
    KindOfTag(kind);
  }

  /** A row long enough for the last field of its case lacks none of them. */
  lemma AllFieldsPresent(kind: ShapeKind, len: nat)
    requires forall j :: 0 <= j < |FieldsRead(kind)| ==> FieldsRead(kind)[j] < len
    ensures FirstMissing(FieldsRead(kind), len) == |FieldsRead(kind)|
  {
  }

  /** A row that carries every field its case reads is measured by that case. */
  lemma RowMeasured(lib: MathLib, values: seq<string>, kind: ShapeKind)
    requires |values| >= 2 && values[1] == Tag(kind)
    requires forall j :: 0 <= j < |FieldsRead(kind)| ==> FieldsRead(kind)[j] < |values|
    ensures ComputeRow(lib, values)
      == Success(RowOut(values[0], values[1], Measure(lib, kind, values).0, Measure(lib, kind, values).1))
  {
    KindOfTag(kind);
    AllFieldsPresent(kind, |values|);
  }

  /** "Square" passes option 0 and reads the side from field 7: area side^2, perimeter 4 side. */
  lemma SquareRow(lib: MathLib, values: seq<string>, side: real)
    requires |values| >= 8 && values[1] == "Square" && side == lib.toDouble(values[7])
    ensures ComputeRow(lib, values) == Success(RowOut(values[0], "Square", side * side, 4.0 * side))
  {
    RowMeasured(lib, values, Square);
    assert Measure(lib, Square, values) == (UniformArea(lib, 0, side), UniformPerimeter(0, side));
    assert UniformArea(lib, 0, side) == side * side;
    assert UniformPerimeter(0, side) == 4.0 * side;
  }

  /** "Equilateral Triangle" passes option 1 and reads the side from field 7: area (sqrt 3 / 4) side^2, perimeter 3 side. */
  lemma TriangleRow(lib: MathLib, values: seq<string>, side: real)
    requires |values| >= 8 && values[1] == "Equilateral Triangle" && side == lib.toDouble(values[7])
    ensures ComputeRow(lib, values) == Success(RowOut(values[0], "Equilateral Triangle", lib.sqrt(3.0) / 4.0 * (side * side), 3.0 * side))
  {
    RowMeasured(lib, values, EquilateralTriangle);
    assert Measure(lib, EquilateralTriangle, values) == (UniformArea(lib, 1, side), UniformPerimeter(1, side));
    assert UniformArea(lib, 1, side) == lib.sqrt(3.0) / 4.0 * (side * side);
    assert UniformPerimeter(1, side) == 3.0 * side;
  }

  /** "Circle" reads the radius from field 7: area pi r^2, perimeter 2 pi r. */
  lemma CircleRow(lib: MathLib, values: seq<string>, r: real)
    requires |values| >= 8 && values[1] == "Circle" && r == lib.toDouble(values[7])
    ensures ComputeRow(lib, values) == Success(RowOut(values[0], "Circle", lib.pi * (r * r), 2.0 * lib.pi * r))
  {
    RowMeasured(lib, values, Circle);
    assert Measure(lib, Circle, values) == (CircleArea(lib, r), CirclePerimeter(lib, r));
    assert CircleArea(lib, r) == lib.pi * (r * r);
    assert CirclePerimeter(lib, r) == 2.0 * lib.pi * r;
  }

  /** "Ellipse" reads the radii from fields 7 and 9: area pi r1 r2 and Ramanujan's perimeter of (r1, r2). */
  lemma EllipseRow(lib: MathLib, values: seq<string>, r1: real, r2: real)
    requires |values| >= 10 && values[1] == "Ellipse"
    requires r1 == lib.toDouble(values[7]) && r2 == lib.toDouble(values[9])
    ensures ComputeRow(lib, values) == Success(RowOut(values[0], "Ellipse", lib.pi * r1 * r2, EllipsePerimeter(lib, r1, r2)))
  {
    RowMeasured(lib, values, Ellipse);
    assert Measure(lib, Ellipse, values) == (EllipseArea(lib, r1, r2), EllipsePerimeter(lib, r1, r2));
    assert EllipseArea(lib, r1, r2) == lib.pi * r1 * r2;
  }

  /**
   * The polygon case reports half the shoelace sum of the vertices BuildXYCoord decoded, and
   * a non-negative perimeter; whatever the row length, it never throws.
   */
  lemma PolygonRowMeasures(lib: MathLib, values: seq<string>)
    requires |values| >= 2 && values[1] == "Polygon"
    ensures var r := ComputeRow(lib, values);
      && r.Success?
      && r.value.area == ShoelaceSum(PolygonVertices(lib, values)) / 2.0
      && r.value.perimeter == PerimeterSum(lib, PolygonVertices(lib, values))
      && r.value.perimeter >= 0.0
  {
    PerimeterNonNegative(lib, PolygonVertices(lib, values));
  }

  /**
   * As written, a well-formed row for the w-by-h rectangle reports area w * h / 2 instead of
   * w * h: its last vertex is decoded as (0, 0), turning the rectangle into a triangle.
   */
  lemma RectangleRowAsWritten(lib: MathLib, id: string, show: real -> string, w: real, h: real)
    requires ShowRoundTrips(lib, show, Rectangle(w, h))
    ensures ComputeRow(lib, PolygonRow(id, show, Rectangle(w, h))).value.area == w * h / 2.0
  {
    var row := PolygonRow(id, show, Rectangle(w, h));
    AsWrittenDropsLastVertex(lib, id, show, Rectangle(w, h));
    var vs := PolygonVertices(lib, row);
    assert vs == Rectangle(w, h)[..3] + [Point(0.0, 0.0)];
    assert vs == [Point(0.0, 0.0), Point(w, 0.0), Point(w, h), Point(0.0, 0.0)];
    TriangleShoelace(w, h);
    PolygonRowMeasures(lib, row);
  }

  /** With the intended decoding, the same rectangle row yields area w * h. */
  lemma RectangleRowIntended(lib: MathLib, id: string, show: real -> string, w: real, h: real)
    requires ShowRoundTrips(lib, show, Rectangle(w, h))
    ensures var row := PolygonRow(id, show, Rectangle(w, h));
      var c := IntendedCoords(lib, row, SetSize(|row|));
      ShoelaceSum(Vertices(c.xcoord, c.ycoord)) / 2.0 == w * h
  {
    IntendedRoundTrip(lib, id, show, Rectangle(w, h));
    RectangleShoelace(w, h);
  }
}
