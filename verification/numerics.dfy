/**
 * The numeric vocabulary the shape program relies on: the .NET library calls it makes
 * (Math.PI, Math.Sqrt, Convert.ToDouble), C#'s integer division, and a result type for
 * the places where the program would throw.
 */
module Numerics {

  /** Success/failure outcome; `Failure` stands for an exception the C# code would throw. */
  datatype Result<+T, +E> = Success(value: T) | Failure(error: E)

  datatype Option<+T> = None | Some(value: T)

  /**
   * The library primitives the program calls, left uninterpreted:
   * `pi` is Math.PI, `sqrt` is Math.Sqrt and `toDouble` is Convert.ToDouble.
   */
  datatype Lib = Lib(pi: real, sqrt: real -> real, toDouble: string -> real)

  /** All that the model assumes of the library: pi is positive and a square root is never negative. */
  ghost predicate ValidLib(lib: Lib)
  {
    && lib.pi > 0.0
    && forall x: real :: 0.0 <= x ==> 0.0 <= lib.sqrt(x)
  }

  type MathLib = lib: Lib | ValidLib(lib) witness Lib(3.0, _ => 0.0, _ => 0.0)

  /** Math.Pow(x, 2). */
  function Pow2(x: real): real
  {
    x * x
  }

  lemma Pow2NonNegative(x: real)
    ensures Pow2(x) >= 0.0
  {
  }

  lemma Pow2Negate(x: real)
    ensures Pow2(-x) == Pow2(x)
  {
  }

  /** C#'s `a / 4` on `int`, which truncates toward zero (Dafny's `/` is Euclidean). */
  function TruncDiv4(a: int): (q: int)
    ensures a >= 0 ==> 0 <= 4 * q <= a < 4 * q + 4
    ensures a < 0 ==> 4 * q - 4 < a <= 4 * q <= 0
  {
    if a >= 0 then a / 4 else -((-a) / 4)
  }
}
