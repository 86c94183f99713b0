/** The cube root of the Cubic controller (picoquic_cubic_root), over the reals. */
module CubicRoot {

  function Cube(y: real): real {
    y * y * y
  }

  /** One Newton step from `y` towards the root of `x`. */
  function Newton(x: real, y: real): real
    requires y > 0.0
  {
    y + (x - y * y * y) / (3.0 * (y * y))
  }

  lemma Positive(a: real, b: real)
    requires a > 0.0 && b > 0.0
    ensures a * b > 0.0
  {
  }

  lemma NonNegative(a: real, b: real)
    requires a >= 0.0 && b >= 0.0
    ensures a * b >= 0.0
  {
  }

  /** The step satisfies 3 y^2 y' = 2 y^3 + x; cubed, 27 Y^2 y'^3 = (2 Y + x)^3 for Y = y^3. */
  lemma NewtonCubed(x: real, y: real)
    requires y > 0.0
    ensures var v := Cube(y); 27.0 * (v * v) * Cube(Newton(x, y)) == Cube(2.0 * v + x)
  {
  }

  /** A step never undershoots the root, from either side of it. */
  lemma NewtonAbove(x: real, y: real)
    requires x > 0.0 && y > 0.0
    ensures Newton(x, y) > 0.0 && Cube(Newton(x, y)) >= x
  {
  }

  lemma Products(x: real, v: real, w: real)
    requires 0.0 < x <= v <= w
    ensures w * v >= x * x > 0.0 && 2.0 * (w * v) >= x * (w + v)
  {
  }

  lemma RestNonNegative(p: real, q: real, s: real)
    requires p >= q >= 0.0 && s <= 2.0 * p
    ensures 8.0 * (p * p) - 6.0 * (p * q) - q * s >= 0.0
  {
  }

  /** For x <= v <= w, the quotient (2 v + x)^3 / v^2 grows with v. */
  lemma QuotientGrows(x: real, v: real, w: real)
    requires 0.0 < x <= v <= w
    ensures Cube(2.0 * v + x) * (w * w) <= Cube(2.0 * w + x) * (v * v)
  {
    Products(x, v, w);
    RestNonNegative(w * v, x * x, x * (w + v));
    NonNegative(w - v, 8.0 * ((w * v) * (w * v)) - 6.0 * ((w * v) * (x * x)) - (x * x) * (x * (w + v)));
    Difference(x, v, w);
  }

  lemma Difference(x: real, v: real, w: real)
    ensures Cube(2.0 * w + x) * (v * v) - Cube(2.0 * v + x) * (w * w)
            == (w - v) * (8.0 * ((w * v) * (w * v)) - 6.0 * ((w * v) * (x * x)) - (x * x) * (x * (w + v)))
  {
  }

  lemma Homogeneous(x: real, c: real, k: real, w: real, bound: real)
    requires x > 0.0 && Cube(2.0 * c + 1.0) <= 27.0 * k * (c * c) && w == c * x && bound == k * x
    ensures Cube(2.0 * w + x) <= 27.0 * bound * (w * w)
  {
  }

  lemma Combine(v2: real, w2: real, z: real, a: real, b: real, bound: real)
    requires v2 > 0.0 && w2 > 0.0 && 27.0 * v2 * z == a && a * w2 <= b * v2 && b <= 27.0 * bound * w2
    ensures z <= bound
  {
  }

  /** A step from at most c times x (in cubes) ends at most k times x, where (2 c + 1)^3 <= 27 k c^2. */
  lemma NewtonBelow(x: real, y: real, c: real, k: real)
    requires x > 0.0 && y > 0.0 && x <= Cube(y) <= c * x
    requires Cube(2.0 * c + 1.0) <= 27.0 * k * (c * c)
    ensures Cube(Newton(x, y)) <= k * x
  {
    var v, w := Cube(y), c * x;
    NewtonCubed(x, y);
    QuotientGrows(x, v, w);
    Homogeneous(x, c, k, w, k * x);
    Positive(v, v);
    Positive(w, w);
    Combine(v * v, w * w, Cube(Newton(x, y)), Cube(2.0 * v + x), Cube(2.0 * w + x), k * x);
  }

  /** The result is never below the root, and its cube is at most four hundredths above `x` from one on. */
  method CubicRoot(x: real) returns (y: real)
    requires x > 0.0
    ensures y > 0.0 && Cube(y) >= x
    ensures x >= 1.0 ==> Cube(y) <= 1.04 * x
  {
    var v := 1.0;
    y := 1.0;
    while v < x
      invariant y >= 1.0 && v == Cube(y)
      invariant v == 1.0 || v < 8.0 * x
      decreases (x - v).Floor
    {
      v := v * 8.0;
      y := y * 2.0;
    }
    var bounds := [8.0, 2.8433, 1.3698, 1.04];
    for i := 0 to 3
      invariant y > 0.0 && Cube(y) >= x
      invariant x >= 1.0 ==> Cube(y) <= bounds[i] * x
    {
      NewtonAbove(x, y);
      if x >= 1.0 {
        NewtonBelow(x, y, bounds[i], bounds[i + 1]);
      }
      y := Newton(x, y);
    }
  }
}
