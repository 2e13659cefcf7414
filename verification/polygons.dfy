/**
 * Polygon geometry: the shoelace sum (Polygon.area) and the perimeter (Polygon.permimeter)
 * over the parallel coordinate arrays `xcoord`/`ycoord`.
 *
 * Both are cyclic sums over the edges of the closed polygon, edge i joining vertex i to
 * vertex (i + 1) mod n. They are stated once, generically, for an edge function `f`
 * (`CyclicSum`), and related to a structural definition (`ClosedSum`: the open chain
 * plus the closing edge) on which reversal and rotation are proved.
 */
module Polygons {
  import opened Numerics

  datatype Point = Point(x: real, y: real)

  type EdgeFn = (Point, Point) -> real

  /** Vertex i of the polygon whose coordinate arrays are `xs` and `ys`. */
  function Vertices(xs: seq<real>, ys: seq<real>): seq<Point>
    requires |xs| == |ys|
  {
    seq(|xs|, i requires 0 <= i < |xs| => Point(xs[i], ys[i]))
  }

  /** The shoelace term of the edge p -> q. */
  function Cross(p: Point, q: Point): real
  {
    p.x * q.y - p.y * q.x
  }

  /** Euclidean length of the edge p -> q, as Math.Sqrt(Math.Pow(dx, 2) + Math.Pow(dy, 2)). */
  function Distance(lib: MathLib, p: Point, q: Point): real
  {
    lib.sqrt(Pow2(q.x - p.x) + Pow2(q.y - p.y))
  }

  function DistanceFn(lib: MathLib): EdgeFn
  {
    (p, q) => Distance(lib, p, q)
  }

  /** The edge function read in the opposite direction. */
  function Flip(f: EdgeFn): EdgeFn
  {
    (p, q) => f(q, p)
  }

  /** Sum of f over the first k edges of the closed polygon vs, edge i joining vs[i] to vs[(i + 1) % |vs|]. */
  function CyclicSum(f: EdgeFn, vs: seq<Point>, k: nat): real
    requires k <= |vs|
  {
    if k == 0 then 0.0 else CyclicSum(f, vs, k - 1) + f(vs[k - 1], vs[k % |vs|])
  }

  /** The shoelace sum over all n edges: twice the signed area of the polygon. */
  function ShoelaceSum(vs: seq<Point>): real
  {
    CyclicSum(Cross, vs, |vs|)
  }

  /** The sum of the lengths of all n edges, the closing edge included. */
  function PerimeterSum(lib: MathLib, vs: seq<Point>): real
  {
    CyclicSum(DistanceFn(lib), vs, |vs|)
  }

  /** Sum of f over the open chain vs[0] -> vs[1] -> ... -> vs[|vs| - 1]. */
  function ChainSum(f: EdgeFn, vs: seq<Point>): real
  {
    if |vs| < 2 then 0.0 else f(vs[0], vs[1]) + ChainSum(f, vs[1..])
  }

  /** The open chain closed by the edge from the last vertex back to the first. */
  function ClosedSum(f: EdgeFn, vs: seq<Point>): real
  {
    if |vs| == 0 then 0.0 else ChainSum(f, vs) + f(vs[|vs| - 1], vs[0])
  }

  function Reverse(vs: seq<Point>): seq<Point>
  {
    seq(|vs|, i requires 0 <= i < |vs| => vs[|vs| - 1 - i])
  }

  /** The same closed polygon, traversed from its second vertex. */
  function Rotate(vs: seq<Point>): seq<Point>
    requires |vs| > 0
  {
    vs[1..] + [vs[0]]
  }

  /** The vertex after vertex i, wrapping from the last vertex to vertex 0. */
  lemma NextIndex(i: nat, n: nat)
    requires i < n
    ensures (i + 1) % n == if i + 1 == n then 0 else i + 1
  {
  }

  /**
   * Polygon.area: the loop over i < numpoints whose `i + 1 == numpoints` branch adds the
   * edge from the last vertex back to vertex 0. The result is the modular shoelace sum.
   */
  method Area(xs: seq<real>, ys: seq<real>) returns (a: real)
    requires |xs| == |ys|
    ensures a == ShoelaceSum(Vertices(xs, ys))
  {
    ghost var vs := Vertices(xs, ys);
    var numpoints := |xs|;
    a := 0.0;
    var i := 0;
    while i < numpoints
      invariant 0 <= i <= numpoints
      invariant a == CyclicSum(Cross, vs, i)
    {
      NextIndex(i, numpoints);
      if i + 1 == numpoints {
        // the last vertex connects back to vertex 0
        a := a + Cross(Point(xs[i], ys[i]), Point(xs[0], ys[0]));
      } else {
        a := a + Cross(Point(xs[i], ys[i]), Point(xs[i + 1], ys[i + 1]));
      }
      i := i + 1;
    }
  }

  /** Polygon.permimeter: the same loop shape, adding edge lengths. */
  method Perimeter(lib: MathLib, xs: seq<real>, ys: seq<real>) returns (perry: real)
    requires |xs| == |ys|
    ensures perry == PerimeterSum(lib, Vertices(xs, ys))
  {
    ghost var vs := Vertices(xs, ys);
    var numpoints := |xs|;
    perry := 0.0;
    var i := 0;
    while i < numpoints
      invariant 0 <= i <= numpoints
      invariant perry == CyclicSum(DistanceFn(lib), vs, i)
    {
      NextIndex(i, numpoints);
      if i + 1 == numpoints {
        // the last vertex connects back to vertex 0
        perry := perry + Distance(lib, Point(xs[i], ys[i]), Point(xs[0], ys[0]));
      } else {
        perry := perry + Distance(lib, Point(xs[i], ys[i]), Point(xs[i + 1], ys[i + 1]));
      }
      i := i + 1;
    }
  }

  /** Appending a vertex to a non-empty chain adds exactly the edge into it. */
  lemma {:induction false} ChainSumSnoc(f: EdgeFn, vs: seq<Point>, p: Point)
    requires |vs| > 0
    ensures ChainSum(f, vs + [p]) == ChainSum(f, vs) + f(vs[|vs| - 1], p)
  {
    if |vs| == 1 {
      assert (vs + [p])[1..] == [p];
    } else {
      assert (vs + [p])[1..] == vs[1..] + [p];
      ChainSumSnoc(f, vs[1..], p);
    }
  }

  /** Before the last edge, the modular index never wraps: the first k edges form the chain vs[..k + 1]. */
  lemma {:induction false} CyclicPrefixIsChain(f: EdgeFn, vs: seq<Point>, k: nat)
    requires k < |vs|
    ensures CyclicSum(f, vs, k) == ChainSum(f, vs[..k + 1])
  {
    if k > 0 {
      CyclicPrefixIsChain(f, vs, k - 1);
      assert k % |vs| == k;
      assert CyclicSum(f, vs, k) == ChainSum(f, vs[..k]) + f(vs[k - 1], vs[k]);
      assert vs[..k + 1] == vs[..k] + [vs[k]];
      ChainSumSnoc(f, vs[..k], vs[k]);
    } else {
      assert ChainSum(f, vs[..1]) == 0.0;
    }
  }

  /** The modular sum over all n edges is the open chain plus the closing edge. */
  lemma CyclicIsClosed(f: EdgeFn, vs: seq<Point>)
    ensures CyclicSum(f, vs, |vs|) == ClosedSum(f, vs)
  {
    if |vs| > 0 {
      CyclicPrefixIsChain(f, vs, |vs| - 1);
      assert vs[..|vs|] == vs;
    }
  }

  /** Walking a chain backwards sums the flipped edge function over the original chain. */
  lemma {:induction false} ChainSumReverse(f: EdgeFn, vs: seq<Point>)
    ensures ChainSum(f, Reverse(vs)) == ChainSum(Flip(f), vs)
  {
    if |vs| >= 2 {
      var tail := vs[1..];
      assert Reverse(vs) == Reverse(tail) + [vs[0]];
      ChainSumSnoc(f, Reverse(tail), vs[0]);
      ChainSumReverse(f, tail);
    }
  }

  /** An edge function that is the negation of another gives the negated chain sum. */
  lemma {:induction false} ChainSumNegate(f: EdgeFn, g: EdgeFn, vs: seq<Point>)
    requires forall p: Point, q: Point :: g(p, q) == -f(p, q)
    ensures ChainSum(g, vs) == -ChainSum(f, vs)
  {
    if |vs| >= 2 {
      ChainSumNegate(f, g, vs[1..]);
    }
  }

  /** Edge functions that agree everywhere give the same chain sum. */
  lemma {:induction false} ChainSumAgree(f: EdgeFn, g: EdgeFn, vs: seq<Point>)
    requires forall p: Point, q: Point :: g(p, q) == f(p, q)
    ensures ChainSum(g, vs) == ChainSum(f, vs)
  {
    if |vs| >= 2 {
      ChainSumAgree(f, g, vs[1..]);
    }
  }

  /** Traversing the closed polygon backwards sums the flipped edge function. */
  lemma ClosedSumReverse(f: EdgeFn, vs: seq<Point>)
    ensures ClosedSum(f, Reverse(vs)) == ClosedSum(Flip(f), vs)
  {
    ChainSumReverse(f, vs);
  }

  /** Starting the closed polygon at its second vertex changes no cyclic sum. */
  lemma ClosedSumRotate(f: EdgeFn, vs: seq<Point>)
    requires |vs| > 0
    ensures ClosedSum(f, Rotate(vs)) == ClosedSum(f, vs)
  {
    if |vs| >= 2 {
      ChainSumSnoc(f, vs[1..], vs[0]);
    } else {
      assert Rotate(vs) == vs;
    }
  }

  /** Reversing the vertex order negates the shoelace sum (the signed area changes sign). */
  lemma ShoelaceReverse(vs: seq<Point>)
    ensures ShoelaceSum(Reverse(vs)) == -ShoelaceSum(vs)
  {
    CyclicIsClosed(Cross, Reverse(vs));
    CyclicIsClosed(Cross, vs);
    ClosedSumReverse(Cross, vs);
    ChainSumNegate(Cross, Flip(Cross), vs);
  }

  /** The shoelace sum does not depend on which vertex the traversal starts from. */
  lemma ShoelaceRotate(vs: seq<Point>)
    requires |vs| > 0
    ensures ShoelaceSum(Rotate(vs)) == ShoelaceSum(vs)
  {
    CyclicIsClosed(Cross, Rotate(vs));
    CyclicIsClosed(Cross, vs);
    ClosedSumRotate(Cross, vs);
  }

  /** With fewer than three vertices the polygon encloses nothing: the shoelace sum is 0. */
  lemma ShoelaceDegenerate(vs: seq<Point>)
    requires |vs| <= 2
    ensures ShoelaceSum(vs) == 0.0
  {
    if |vs| == 2 {
      assert CyclicSum(Cross, vs, 1) == Cross(vs[0], vs[1]);
      assert CyclicSum(Cross, vs, 2) == Cross(vs[0], vs[1]) + Cross(vs[1], vs[0]);
    } else if |vs| == 1 {
      assert CyclicSum(Cross, vs, 1) == Cross(vs[0], vs[0]);
    }
  }

  lemma DistanceSymmetric(lib: MathLib, p: Point, q: Point)
    ensures Distance(lib, q, p) == Distance(lib, p, q)
  {
    Pow2Negate(q.x - p.x);
    Pow2Negate(q.y - p.y);
  }

  /** Reversing the vertex order leaves the perimeter unchanged: each edge length is symmetric. */
  lemma PerimeterReverse(lib: MathLib, vs: seq<Point>)
    ensures PerimeterSum(lib, Reverse(vs)) == PerimeterSum(lib, vs)
  {
    CyclicIsClosed(DistanceFn(lib), Reverse(vs));
    CyclicIsClosed(DistanceFn(lib), vs);
    ClosedSumReverse(DistanceFn(lib), vs);
    forall p: Point, q: Point
      ensures Flip(DistanceFn(lib))(p, q) == DistanceFn(lib)(p, q)
    {
      DistanceSymmetric(lib, p, q);
    }
    ChainSumAgree(DistanceFn(lib), Flip(DistanceFn(lib)), vs);
  }

  /** The perimeter does not depend on which vertex the traversal starts from. */
  lemma PerimeterRotate(lib: MathLib, vs: seq<Point>)
    requires |vs| > 0
    ensures PerimeterSum(lib, Rotate(vs)) == PerimeterSum(lib, vs)
  {
    CyclicIsClosed(DistanceFn(lib), Rotate(vs));
    CyclicIsClosed(DistanceFn(lib), vs);
    ClosedSumRotate(DistanceFn(lib), vs);
  }

  /** The w-by-h rectangle with a corner at the origin, traversed counter-clockwise when w, h > 0. */
  function Rectangle(w: real, h: real): seq<Point>
  {
    [Point(0.0, 0.0), Point(w, 0.0), Point(w, h), Point(0.0, h)]
  }

  /** A quadrilateral's cyclic sum has its four edges, the closing edge d -> a included. */
  lemma CyclicSumQuad(f: EdgeFn, a: Point, b: Point, c: Point, d: Point)
    ensures CyclicSum(f, [a, b, c, d], 4) == f(a, b) + f(b, c) + f(c, d) + f(d, a)
  {
    var vs := [a, b, c, d];
    assert CyclicSum(f, vs, 1) == f(a, b);
    assert CyclicSum(f, vs, 2) == f(a, b) + f(b, c);
    assert CyclicSum(f, vs, 4) == CyclicSum(f, vs, 2) + f(c, d) + f(d, a);
  }

  /** The rectangle's shoelace sum is 2wh: halved, its area w * h. */
  lemma RectangleShoelace(w: real, h: real)
    ensures ShoelaceSum(Rectangle(w, h)) == 2.0 * w * h
  {
    var o, a, b, c := Point(0.0, 0.0), Point(w, 0.0), Point(w, h), Point(0.0, h);
    CyclicSumQuad(Cross, o, a, b, c);
    assert Cross(o, a) + Cross(a, b) + Cross(b, c) + Cross(c, o) == 2.0 * w * h;
  }

  /** The degenerate rectangle (0,0), (w,0), (w,h), (0,0) has shoelace sum w * h. */
  lemma TriangleShoelace(w: real, h: real)
    ensures ShoelaceSum([Point(0.0, 0.0), Point(w, 0.0), Point(w, h), Point(0.0, 0.0)]) == w * h
  {
    var o, a, b := Point(0.0, 0.0), Point(w, 0.0), Point(w, h);
    CyclicSumQuad(Cross, o, a, b, o);
    assert Cross(o, a) + Cross(a, b) + Cross(b, o) + Cross(o, o) == w * h;
  }

  /** The rectangle's perimeter is 2w + 2h, given that the square roots of w^2 and h^2 are w and h. */
  lemma RectanglePerimeter(lib: MathLib, w: real, h: real)
    requires lib.sqrt(Pow2(w)) == w && lib.sqrt(Pow2(h)) == h
    ensures PerimeterSum(lib, Rectangle(w, h)) == 2.0 * w + 2.0 * h
  {
    var o, a, b, c := Point(0.0, 0.0), Point(w, 0.0), Point(w, h), Point(0.0, h);
    CyclicSumQuad(DistanceFn(lib), o, a, b, c);
    Pow2Negate(w);
    Pow2Negate(h);
    assert Distance(lib, o, a) == w && Distance(lib, a, b) == h;
    assert Distance(lib, b, c) == w && Distance(lib, c, o) == h;
  }

  /** The unit square (0,0), (1,0), (1,1), (0,1) has shoelace sum 2 (area 1 once halved). */
  lemma UnitSquareShoelace()
    ensures ShoelaceSum(Rectangle(1.0, 1.0)) == 2.0
  {
    RectangleShoelace(1.0, 1.0);
  }

  /** The unit square has perimeter 4, given that the square root of 1 is 1. */
  lemma UnitSquarePerimeter(lib: MathLib)
    requires lib.sqrt(1.0) == 1.0
    ensures PerimeterSum(lib, Rectangle(1.0, 1.0)) == 4.0
  {
    RectanglePerimeter(lib, 1.0, 1.0);
  }

  /** Every edge length is non-negative, so the perimeter is too; an empty polygon has perimeter 0. */
  lemma PerimeterNonNegative(lib: MathLib, vs: seq<Point>)
    ensures PerimeterSum(lib, vs) >= 0.0
    ensures |vs| == 0 ==> PerimeterSum(lib, vs) == 0.0
  {
    forall p: Point, q: Point
      ensures DistanceFn(lib)(p, q) >= 0.0
    {
      Pow2NonNegative(q.x - p.x);
      Pow2NonNegative(q.y - p.y);
    }
    CyclicSumNonNegative(DistanceFn(lib), vs, |vs|);
  }

  lemma {:induction false} CyclicSumNonNegative(f: EdgeFn, vs: seq<Point>, k: nat)
    requires k <= |vs|
    requires forall p: Point, q: Point :: f(p, q) >= 0.0
    ensures CyclicSum(f, vs, k) >= 0.0
  {
    if k > 0 {
      CyclicSumNonNegative(f, vs, k - 1);
    }
  }
}
