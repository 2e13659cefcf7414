/**
 * Closed-form area and perimeter of the shapes with a fixed parameter set:
 * `Circle`, `Ellipse` and `Uniform` (square when `option == 0`, equilateral
 * triangle otherwise). Every formula is a pure function of its parameters;
 * the C# classes only cache these values in fields.
 */
module Formulas {
  import opened Numerics

  /** Circle.area: pi * r^2. */
  function CircleArea(lib: MathLib, radius: real): (a: real)
    ensures a >= 0.0
  {
    Pow2NonNegative(radius);
    lib.pi * Pow2(radius)
  }

  /** Circle.permimeter: 2 * pi * r. */
  function CirclePerimeter(lib: MathLib, radius: real): (p: real)
    ensures p >= 0.0 <==> radius >= 0.0
    ensures p == 0.0 <==> radius == 0.0
  {
    2.0 * lib.pi * radius
  }

  /** Ellipse.area: pi * r1 * r2. */
  function EllipseArea(lib: MathLib, r1: real, r2: real): (a: real)
    ensures a >= 0.0 <==> r1 * r2 >= 0.0
  {
    lib.pi * r1 * r2
  }

  /** Ellipse.permimeter: Ramanujan's first approximation pi * (3(r1 + r2) - sqrt((3r1 + r2)(r1 + 3r2))). */
  function EllipsePerimeter(lib: MathLib, r1: real, r2: real): (p: real)
    ensures r1 >= 0.0 && r2 >= 0.0 ==> p <= 3.0 * lib.pi * (r1 + r2)
  {
    assert r1 >= 0.0 && r2 >= 0.0 ==> 0.0 <= lib.sqrt((3.0 * r1 + r2) * (r1 + 3.0 * r2));
    lib.pi * (3.0 * (r1 + r2) - lib.sqrt((3.0 * r1 + r2) * (r1 + 3.0 * r2)))
  }

  /** Uniform.area: the square's side^2 when `option == 0`, otherwise the equilateral triangle's (sqrt 3 / 4) * side^2. */
  function UniformArea(lib: MathLib, option: int, side: real): (a: real)
    ensures a >= 0.0
  {
    Pow2NonNegative(side);
    assert 0.0 <= lib.sqrt(3.0);
    if option == 0 then Pow2(side) else (lib.sqrt(3.0) / 4.0) * Pow2(side)
  }

  /** Uniform.permimeter: four sides for the square (`option == 0`), three for the triangle. */
  function UniformPerimeter(option: int, side: real): (p: real)
    ensures p >= 0.0 <==> side >= 0.0
    ensures option == 0 ==> p == 4.0 * side
    ensures option != 0 ==> p == 3.0 * side
  {
    if option == 0 then side * 4.0 else side * 3.0
  }

  /** The circle's perimeter and area are tied by r * P = 2 * A. */
  lemma CirclePerimeterAreaRatio(lib: MathLib, radius: real)
    ensures radius * CirclePerimeter(lib, radius) == 2.0 * CircleArea(lib, radius)
  {
  }

  /** Scaling a circle by k scales its area by k^2 and its perimeter by k. */
  lemma CircleScaling(lib: MathLib, radius: real, k: real)
    ensures CircleArea(lib, k * radius) == Pow2(k) * CircleArea(lib, radius)
    ensures CirclePerimeter(lib, k * radius) == k * CirclePerimeter(lib, radius)
  {
    assert Pow2(k * radius) == Pow2(k) * Pow2(radius);
  }

  /** Neither ellipse formula depends on which radius is given first. */
  lemma EllipseSymmetric(lib: MathLib, r1: real, r2: real)
    ensures EllipseArea(lib, r1, r2) == EllipseArea(lib, r2, r1)
    ensures EllipsePerimeter(lib, r1, r2) == EllipsePerimeter(lib, r2, r1)
  {
    assert (3.0 * r1 + r2) * (r1 + 3.0 * r2) == (3.0 * r2 + r1) * (r2 + 3.0 * r1);
  }

  /**
   * An ellipse with equal radii r is the circle of radius r: the area agrees, and Ramanujan's
   * approximation is exact there, given that the square root of (4r)^2 is 4r.
   */
  lemma EllipseWithEqualRadiiIsCircle(lib: MathLib, r: real)
    requires r >= 0.0
    requires lib.sqrt(Pow2(4.0 * r)) == 4.0 * r
    ensures EllipseArea(lib, r, r) == CircleArea(lib, r)
    ensures EllipsePerimeter(lib, r, r) == CirclePerimeter(lib, r)
  {
    assert (3.0 * r + r) * (r + 3.0 * r) == Pow2(4.0 * r);
  }

  /** Every option other than 0 selects the equilateral triangle. */
  lemma NonzeroOptionIsTriangle(lib: MathLib, option: int, side: real)
    requires option != 0
    ensures UniformArea(lib, option, side) == UniformArea(lib, 1, side)
    ensures UniformPerimeter(option, side) == UniformPerimeter(1, side)
  {
  }

  /** For the square (option 0) the perimeter P and area A satisfy P^2 = 16 A, i.e. A = side^2 and P = 4 side. */
  lemma SquareAreaFromPerimeter(lib: MathLib, side: real)
    ensures Pow2(UniformPerimeter(0, side)) == 16.0 * UniformArea(lib, 0, side)
  {
  }

  /** For the triangle (option 1) the perimeter P and area A satisfy sqrt(3) P^2 = 36 A, i.e. A = (sqrt 3 / 4) side^2 and P = 3 side. */
  lemma TriangleAreaFromPerimeter(lib: MathLib, side: real)
    ensures lib.sqrt(3.0) * Pow2(UniformPerimeter(1, side)) == 36.0 * UniformArea(lib, 1, side)
  {
  }
}
