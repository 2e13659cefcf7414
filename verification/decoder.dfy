/**
 * Polygon row decoding: Polygon.SetSize turns the field count of a split CSV row into a
 * vertex count, and Polygon.BuildXYCoord walks the row in steps of 4, reading x-values
 * from field 3 onward and y-values from field 5 onward into two zero-initialised arrays.
 *
 * A row for n vertices is `id, "Polygon"` followed by one `label, x, label, y` block per
 * vertex, so vertex k has its x at field 3 + 4k and its y at field 5 + 4k.
 */
module RowDecoder {
  import opened Numerics
  import opened Polygons

  /** Polygon.SetSize: numpoints = (pts - 2) / 4, the quotient truncated toward zero as in C#. */
  function SetSize(pts: int): (numpoints: int)
    ensures pts >= 2 ==> 4 * numpoints <= pts - 2 < 4 * numpoints + 4
    ensures pts < 2 ==> 4 * numpoints - 4 < pts - 2 <= 4 * numpoints
    ensures numpoints >= 0 <==> pts >= -1
  {
    TruncDiv4(pts - 2)
  }

  /** The two arrays BuildXYCoord allocates and fills. */
  datatype Coords = Coords(xcoord: seq<real>, ycoord: seq<real>)

  /** The exceptions BuildXYCoord can raise: `new float[n]` with n < 0, and a store past the array's end. */
  datatype BuildError = NegativeSize(size: int) | SlotOutOfRange(slot: int)

  /**
   * What slot k of an array holds after the loop `for (i = first; i + 4 < len; i += 4)`
   * stores field i into slot k = (i - first) / 4: the parsed field when the loop reaches
   * it, otherwise the 0 the array was created with.
   */
  function SlotValue(lib: MathLib, values: seq<string>, first: nat, k: nat): real
  {
    if first + 4 * k + 4 < |values| then lib.toDouble(values[first + 4 * k]) else 0.0
  }

  /** The outcome of BuildXYCoord in closed form. */
  function DecodeCoords(lib: MathLib, values: seq<string>, numpoints: int): Result<Coords, BuildError>
  {
    if numpoints < 0 then Failure(NegativeSize(numpoints))
    else if 4 * numpoints + 7 < |values| then Failure(SlotOutOfRange(numpoints))
    else Success(Coords(
      seq(numpoints, k requires 0 <= k < numpoints => SlotValue(lib, values, 3, k)),
      seq(numpoints, k requires 0 <= k < numpoints => SlotValue(lib, values, 5, k))))
  }

  /**
   * Polygon.BuildXYCoord for an arbitrary `numpoints` (the field SetSize sets). The x-loop
   * stores field i = 3 + 4k at xcoord[(i + 1) / 4 - 1] = xcoord[k]; the y-loop stores field
   * i = 5 + 4k at ycoord[(i - 1) / 4 - 1] = ycoord[k]; both stop once i + 4 reaches the
   * row length.
   */
  method BuildXYCoord(lib: MathLib, values: seq<string>, numpoints: int) returns (r: Result<Coords, BuildError>)
    ensures r == DecodeCoords(lib, values, numpoints)
    ensures r.Failure? <==> numpoints < 0 || 4 * numpoints + 7 < |values|
    ensures r.Success? ==> |r.value.xcoord| == numpoints && |r.value.ycoord| == numpoints
    ensures r.Success? ==> forall k :: 0 <= k < numpoints ==>
      r.value.xcoord[k] == (if 4 * k + 7 < |values| then lib.toDouble(values[3 + 4 * k]) else 0.0)
    ensures r.Success? ==> forall k :: 0 <= k < numpoints ==>
      r.value.ycoord[k] == (if 4 * k + 9 < |values| then lib.toDouble(values[5 + 4 * k]) else 0.0)
  {
    if numpoints < 0 {
      // `new float[numpoints]` throws
      return Failure(NegativeSize(numpoints));
    }
    var xcoord := seq(numpoints, _ => 0.0);
    var ycoord := seq(numpoints, _ => 0.0);

    var i := 3;
    ghost var k := 0;
    while i + 4 < |values|
      invariant i == 4 * k + 3 && 0 <= k <= numpoints
      invariant k > 0 ==> i < |values|
      invariant |xcoord| == numpoints
      invariant forall j :: 0 <= j < numpoints ==>
        xcoord[j] == (if j < k then lib.toDouble(values[3 + 4 * j]) else 0.0)
    {
      var slot := (i + 1) / 4 - 1;
      assert slot == k;
      if !(0 <= slot < numpoints) {
        // the array store throws
        assert slot == numpoints && 4 * numpoints + 7 < |values|;
        return Failure(SlotOutOfRange(slot));
      }
      xcoord := xcoord[slot := lib.toDouble(values[i])];
      i := i + 4;
      k := k + 1;
    }
    assert 4 * numpoints + 7 >= |values|;

    i := 5;
    k := 0;
    while i + 4 < |values|
      invariant i == 4 * k + 5 && 0 <= k
      invariant k > 0 ==> i < |values|
      invariant |ycoord| == numpoints
      invariant forall j :: 0 <= j < numpoints ==>
        ycoord[j] == (if j < k then lib.toDouble(values[5 + 4 * j]) else 0.0)
    {
      var slot := (i - 1) / 4 - 1;
      assert slot == k;
      // in range: 4 * slot + 9 < |values| <= 4 * numpoints + 7
      ycoord := ycoord[slot := lib.toDouble(values[i])];
      i := i + 4;
      k := k + 1;
    }
    r := Success(Coords(xcoord, ycoord));
    assert DecodeCoords(lib, values, numpoints).Success?;
    assert xcoord == DecodeCoords(lib, values, numpoints).value.xcoord;
    assert ycoord == DecodeCoords(lib, values, numpoints).value.ycoord;
  }

  /**
   * With numpoints derived from the row length by SetSize, as the program always does,
   * every slot either loop reaches lies in [0, numpoints) and decoding cannot fail.
   */
  lemma DerivedSizeInBounds(lib: MathLib, values: seq<string>)
    ensures forall k: nat :: 4 * k + 7 < |values| ==> k < SetSize(|values|)
    ensures forall k: nat :: 4 * k + 9 < |values| ==> k < SetSize(|values|)
    ensures DecodeCoords(lib, values, SetSize(|values|)).Success?
  {
  }

  /**
   * With the derived size n > 0, every vertex before the last is read from its fields; the
   * last y slot is never reached, and the last x slot only when the row length is 0 or 1
   * modulo 4. For a row of exactly 2 + 4n fields the last vertex therefore stays (0, 0).
   */
  lemma UnfilledSlots(lib: MathLib, values: seq<string>)
    requires SetSize(|values|) > 0
    ensures var n := SetSize(|values|);
      var c := DecodeCoords(lib, values, n);
      && c.Success?
      && (forall k :: 0 <= k < n - 1 ==>
            c.value.xcoord[k] == lib.toDouble(values[3 + 4 * k])
            && c.value.ycoord[k] == lib.toDouble(values[5 + 4 * k]))
      && c.value.ycoord[n - 1] == 0.0
      && (4 * (n - 1) + 7 < |values| <==> |values| % 4 == 0 || |values| % 4 == 1)
      && (|values| % 4 == 2 ==> c.value.xcoord[n - 1] == 0.0)
  {
    var n := SetSize(|values|);
    var len := |values|;
    assert 4 * n + 2 <= len < 4 * n + 6;
    if len % 4 == 0 || len % 4 == 1 {
      assert len == 4 * n + 4 || len == 4 * n + 5;
    } else {
      assert len == 4 * n + 2 || len == 4 * n + 3;
    }
  }

  /** The row the program expects for a polygon: id, tag, then a (label, x, label, y) block per vertex. */
  function PolygonRow(id: string, show: real -> string, vs: seq<Point>): (row: seq<string>)
    ensures |row| == 2 + 4 * |vs|
    ensures row[0] == id && row[1] == "Polygon"
    ensures forall k :: 0 <= k < |vs| ==> row[3 + 4 * k] == show(vs[k].x) && row[5 + 4 * k] == show(vs[k].y)
  {
    if |vs| == 0 then [id, "Polygon"]
    else
      var last := vs[|vs| - 1];
      PolygonRow(id, show, vs[..|vs| - 1]) + ["x", show(last.x), "y", show(last.y)]
  }

  /**
   * Every coordinate of `vs` survives being written by `show` and read back by
   * Convert.ToDouble, as a round-trip formatting of the row's numbers would ensure.
   */
  predicate ShowRoundTrips(lib: MathLib, show: real -> string, vs: seq<Point>)
  {
    forall k :: 0 <= k < |vs| ==>
      lib.toDouble(show(vs[k].x)) == vs[k].x && lib.toDouble(show(vs[k].y)) == vs[k].y
  }

  /**
   * Decoding a well-formed polygon row as the code is written recovers every vertex except
   * the last, which comes back as (0, 0).
   */
  lemma AsWrittenDropsLastVertex(lib: MathLib, id: string, show: real -> string, vs: seq<Point>)
    requires |vs| > 0
    requires ShowRoundTrips(lib, show, vs)
    ensures var row := PolygonRow(id, show, vs);
      var c := DecodeCoords(lib, row, SetSize(|row|));
      && c.Success?
      && Vertices(c.value.xcoord, c.value.ycoord) == vs[..|vs| - 1] + [Point(0.0, 0.0)]
  {
    var row := PolygonRow(id, show, vs);
    var n := |vs|;
    assert SetSize(|row|) == n;
    UnfilledSlots(lib, row);
    var c := DecodeCoords(lib, row, n).value;
    var got := Vertices(c.xcoord, c.ycoord);
    var want := vs[..n - 1] + [Point(0.0, 0.0)];
    assert |got| == |want|;
    forall k | 0 <= k < n
      ensures got[k] == want[k]
    {
      if k < n - 1 {
        assert c.xcoord[k] == lib.toDouble(show(vs[k].x));
        assert c.ycoord[k] == lib.toDouble(show(vs[k].y));
      }
    }
  }

  /**
   * The evidently intended decoding: slot k of each array for every k < numpoints, x from
   * field 3 + 4k and y from field 5 + 4k.
   */
  function IntendedCoords(lib: MathLib, values: seq<string>, numpoints: int): (c: Coords)
    requires 0 <= numpoints && (numpoints == 0 || 4 * numpoints + 2 <= |values|)
    ensures |c.xcoord| == numpoints && |c.ycoord| == numpoints
  {
    Coords(
      seq(numpoints, k requires 0 <= k < numpoints => lib.toDouble(values[3 + 4 * k])),
      seq(numpoints, k requires 0 <= k < numpoints => lib.toDouble(values[5 + 4 * k])))
  }

  /** The derived vertex count always admits the intended decoding. */
  lemma IntendedCoordsDefined(values: seq<string>)
    ensures var n := SetSize(|values|); 0 <= n && (n == 0 || 4 * n + 2 <= |values|)
  {
  }

  /** The intended decoding inverts PolygonRow: every vertex, the last included, comes back. */
  lemma IntendedRoundTrip(lib: MathLib, id: string, show: real -> string, vs: seq<Point>)
    requires ShowRoundTrips(lib, show, vs)
    ensures var row := PolygonRow(id, show, vs);
      && SetSize(|row|) == |vs|
      && var c := IntendedCoords(lib, row, |vs|);
      Vertices(c.xcoord, c.ycoord) == vs
  {
    var row := PolygonRow(id, show, vs);
    var c := IntendedCoords(lib, row, |vs|);
    var got := Vertices(c.xcoord, c.ycoord);
    assert |got| == |vs|;
    forall k | 0 <= k < |vs|
      ensures got[k] == vs[k]
    {
    }
  }
}
