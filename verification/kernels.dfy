/**
  The velocity kernels of the four elementary flows (flujos_esenciales.py).

  The source code works in polar coordinates centred on the singular point
  z0: it computes r and θ of the offset, a radial and a tangential speed, and
  rotates them back with cos θ and sin θ. With cos θ = dx / r and
  sin θ = dy / r every kernel reduces to a rational expression in the offset
  (dx, dy), which is what is written here, over exact reals:

  - source: the radial speed s·A / r gives  s·A / r² · (dx, dy);
  - vortex: the tangential speed s·A / r gives  s·A / r² · (−dy, dx);
  - dipole: (vr, vt) = −A / (s·r²) · (cos θ, sin θ) gives
            −A / (s·r⁴) · (dx² − dy², 2·dx·dy).

  Source and vortex take the offset of the INPUT-SCALED point (s·x, s·y);
  the dipole takes the offset of the point as given and divides by s instead.
 */
module Kernels {
  import opened Plane

  /** The offset (dx, dy) of the point (x, y) from the location z0. */
  function Offset(z0: Complex, x: real, y: real): Vec
  {
    Vec(x - z0.re, y - z0.im)
  }

  /** Uniform stream along +x (alpha = 0): cos 0 = 1 and sin 0 = 0. */
  function UniformVelocity(a: real, s: real): Vec
  {
    Vec(s * a * 1.0, s * a * 0.0)
  }

  /** Fuente.velocidad at one point. */
  function SourceVelocity(a: real, s: real, z0: Complex, x: real, y: real): Vec
    requires Offset(z0, s * x, s * y) != Zero
  {
    var d := Offset(z0, s * x, s * y);
    var r2 := Mag2(d);
    Mag2Positive(d);
    Scale(s * a / r2, d)
  }

  /** VorticeIrrotacional.velocidad at one point. */
  function VortexVelocity(a: real, s: real, z0: Complex, x: real, y: real): Vec
    requires Offset(z0, s * x, s * y) != Zero
  {
    var d := Offset(z0, s * x, s * y);
    var r2 := Mag2(d);
    Mag2Positive(d);
    Scale(s * a / r2, Perp(d))
  }

  /** Doblete.velocidad at one point; the offset is taken from the unscaled point. */
  function DipoleVelocity(a: real, s: real, z0: Complex, x: real, y: real): Vec
    requires s != 0.0
    requires Offset(z0, x, y) != Zero
  {
    var d := Offset(z0, x, y);
    var r2 := Mag2(d);
    Mag2Positive(d);
    Scale(((-a / r2) / r2) * (1.0 / s), Square(d))
  }

  // ------------------------------------------------------------ properties

  /**
    The source velocity is radial: it is parallel to the offset d, its
    component along d is s·A / r (so Dot(v, d) = s·A), and its squared
    magnitude is (s·A)² / r².
   */
  lemma SourceIsRadial(a: real, s: real, z0: Complex, x: real, y: real)
    requires Offset(z0, s * x, s * y) != Zero
    ensures Cross(SourceVelocity(a, s, z0, x, y), Offset(z0, s * x, s * y)) == 0.0
    ensures Dot(SourceVelocity(a, s, z0, x, y), Offset(z0, s * x, s * y)) == s * a
    ensures Mag2(SourceVelocity(a, s, z0, x, y)) * Mag2(Offset(z0, s * x, s * y)) == (s * a) * (s * a)
  {
    var d := Offset(z0, s * x, s * y);
    var r2 := Mag2(d);
    Mag2Positive(d);
    var k := s * a / r2;
    var v := SourceVelocity(a, s, z0, x, y);
    assert v == Scale(k, d);
    CrossScale(k, d);
    DotScale(k, d);
    QuotientTimes(s * a, r2);
    Mag2Scale(k, d);
    InverseSquare(s * a, r2);
  }

  /**
    The vortex velocity is tangential: it is orthogonal to the offset d, it
    turns counter-clockwise for A·s > 0 (Cross(d, v) = s·A), and its squared
    magnitude is (s·A)² / r².
   */
  lemma VortexIsTangential(a: real, s: real, z0: Complex, x: real, y: real)
    requires Offset(z0, s * x, s * y) != Zero
    ensures Dot(VortexVelocity(a, s, z0, x, y), Offset(z0, s * x, s * y)) == 0.0
    ensures Cross(Offset(z0, s * x, s * y), VortexVelocity(a, s, z0, x, y)) == s * a
    ensures Mag2(VortexVelocity(a, s, z0, x, y)) * Mag2(Offset(z0, s * x, s * y)) == (s * a) * (s * a)
  {
    var d := Offset(z0, s * x, s * y);
    var r2 := Mag2(d);
    Mag2Positive(d);
    var k := s * a / r2;
    var v := VortexVelocity(a, s, z0, x, y);
    assert v == Scale(k, Perp(d));
    DotScalePerp(k, d);
    QuotientTimes(s * a, r2);
    Mag2Scale(k, Perp(d));
    InverseSquare(s * a, r2);
  }

  /** The dipole's squared speed is A² / (s²·r⁴), r measured from z0 without input scaling. */
  lemma DipoleMagnitude(a: real, s: real, z0: Complex, x: real, y: real)
    requires s != 0.0
    requires Offset(z0, x, y) != Zero
    ensures Mag2(DipoleVelocity(a, s, z0, x, y)) * (s * s) * (Mag2(Offset(z0, x, y)) * Mag2(Offset(z0, x, y))) == a * a
  {
    var d := Offset(z0, x, y);
    var r2 := Mag2(d);
    Mag2Positive(d);
    var k := ((-a / r2) / r2) * (1.0 / s);
    var v := DipoleVelocity(a, s, z0, x, y);
    assert v == Scale(k, Square(d));
    Mag2Scale(k, Square(d));
    Mag2Square(d);
    DipoleFactor(a, s, r2);
  }

  /**
    A unit-scale source at the origin, seen from a point (x, 0) of the x axis,
    blows outward along the axis with speed A / |x|: (A / x, 0).
   */
  lemma SourceOnAxis(a: real, x: real)
    requires x != 0.0
    ensures Offset(CZero, 1.0 * x, 1.0 * 0.0) != Zero
    ensures SourceVelocity(a, 1.0, CZero, x, 0.0) == Vec(a / x, 0.0)
  {
    var d := Offset(CZero, 1.0 * x, 1.0 * 0.0);
    assert d == Vec(x, 0.0);
    assert Mag2(d) == x * x;
    SquarePositive(x);
    AxisQuotient(a, x);
  }

  /**
    A unit-scale vortex at the origin, seen from a point (x, 0) of the x axis,
    turns across the axis with speed A / |x|: (0, A / x).
   */
  lemma VortexOnAxis(a: real, x: real)
    requires x != 0.0
    ensures Offset(CZero, 1.0 * x, 1.0 * 0.0) != Zero
    ensures VortexVelocity(a, 1.0, CZero, x, 0.0) == Vec(0.0, a / x)
  {
    var d := Offset(CZero, 1.0 * x, 1.0 * 0.0);
    assert d == Vec(x, 0.0);
    assert Perp(d) == Vec(-0.0, x);
    assert Mag2(d) == x * x;
    SquarePositive(x);
    AxisQuotient(a, x);
  }

  /** Halving the distance to a source doubles its velocity (same direction, 1/r decay). */
  lemma SourceHalfDistance(a: real, s: real, z0: Complex, x: real, y: real, x': real, y': real)
    requires Offset(z0, s * x, s * y) != Zero
    requires Offset(z0, s * x', s * y') == Scale(0.5, Offset(z0, s * x, s * y))
    ensures SourceVelocity(a, s, z0, x', y') == Scale(2.0, SourceVelocity(a, s, z0, x, y))
  {
    var d := Offset(z0, s * x, s * y);
    var r2 := Mag2(d);
    Mag2Positive(d);
    Mag2Scale(0.5, d);
    HalfDistanceFactor(s * a, r2);
    ScaleScale(s * a / (0.25 * r2), 0.5, d);
    ScaleScale(2.0, s * a / r2, d);
  }

  /** Halving the distance to a vortex doubles its velocity (same direction, 1/r decay). */
  lemma VortexHalfDistance(a: real, s: real, z0: Complex, x: real, y: real, x': real, y': real)
    requires Offset(z0, s * x, s * y) != Zero
    requires Offset(z0, s * x', s * y') == Scale(0.5, Offset(z0, s * x, s * y))
    ensures VortexVelocity(a, s, z0, x', y') == Scale(2.0, VortexVelocity(a, s, z0, x, y))
  {
    var d := Offset(z0, s * x, s * y);
    var r2 := Mag2(d);
    Mag2Positive(d);
    Mag2Scale(0.5, d);
    assert Perp(Scale(0.5, d)) == Scale(0.5, Perp(d));
    HalfDistanceFactor(s * a, r2);
    ScaleScale(s * a / (0.25 * r2), 0.5, Perp(d));
    ScaleScale(2.0, s * a / r2, Perp(d));
  }

  /**
    Halving the distance to a dipole multiplies its velocity by four (same
    direction, 1/r² decay); the distance is measured without input scaling.
   */
  lemma DipoleHalfDistance(a: real, s: real, z0: Complex, x: real, y: real, x': real, y': real)
    requires s != 0.0
    requires Offset(z0, x, y) != Zero
    requires Offset(z0, x', y') == Scale(0.5, Offset(z0, x, y))
    ensures DipoleVelocity(a, s, z0, x', y') == Scale(4.0, DipoleVelocity(a, s, z0, x, y))
  {
    var d := Offset(z0, x, y);
    var r2 := Mag2(d);
    Mag2Positive(d);
    Mag2Scale(0.5, d);
    SquareScale(0.5, d);
    var k := ((-a / r2) / r2) * (1.0 / s);
    var k' := ((-a / (0.25 * r2)) / (0.25 * r2)) * (1.0 / s);
    DipoleHalfFactor(a, s, r2);
    ScaleScale(k', 0.25, Square(d));
    ScaleScale(4.0, k, Square(d));
  }

  // ------------------------------------------------------------ velocity and potential

  /**
    conj(u)·w as vectors: its real part is the dot product and its imaginary
    part the cross product.
   */
  lemma ConjugateTimes(u: Vec, w: Vec)
    ensures CMul(Conj(AsComplex(u)), AsComplex(w)) == Complex(Dot(u, w), Cross(u, w))
  {
  }

  /**
    The source velocity is the conjugate of the derivative of its complex
    potential A·ln(s·z − z0): conj(v)·(s·z − z0) = A·s.
   */
  lemma SourceMatchesPotential(a: real, s: real, z0: Complex, x: real, y: real)
    requires Offset(z0, s * x, s * y) != Zero
    ensures CMul(Conj(AsComplex(SourceVelocity(a, s, z0, x, y))), AsComplex(Offset(z0, s * x, s * y)))
         == Complex(s * a, 0.0)
  {
    SourceIsRadial(a, s, z0, x, y);
    ConjugateTimes(SourceVelocity(a, s, z0, x, y), Offset(z0, s * x, s * y));
  }

  /**
    The vortex velocity is the conjugate of the derivative of its complex
    potential −i·A·ln(s·z − z0): conj(v)·(s·z − z0) = −i·A·s.
   */
  lemma VortexMatchesPotential(a: real, s: real, z0: Complex, x: real, y: real)
    requires Offset(z0, s * x, s * y) != Zero
    ensures CMul(Conj(AsComplex(VortexVelocity(a, s, z0, x, y))), AsComplex(Offset(z0, s * x, s * y)))
         == Complex(0.0, -(s * a))
  {
    VortexIsTangential(a, s, z0, x, y);
    var v, d := VortexVelocity(a, s, z0, x, y), Offset(z0, s * x, s * y);
    assert Cross(v, d) == -Cross(d, v);
    ConjugateTimes(v, d);
  }

  /**
    What the dipole kernel satisfies as written: conj(v)·(z − z0)² = −A / s,
    with z − z0 taken WITHOUT input scaling.
   */
  lemma DipoleConjugate(a: real, s: real, z0: Complex, x: real, y: real)
    requires s != 0.0
    requires Offset(z0, x, y) != Zero
    ensures CMul(Conj(AsComplex(DipoleVelocity(a, s, z0, x, y))), AsComplex(Square(Offset(z0, x, y))))
         == Complex(-a / s, 0.0)
  {
    var d := Offset(z0, x, y);
    var r2 := Mag2(d);
    Mag2Positive(d);
    var k := ((-a / r2) / r2) * (1.0 / s);
    var v := DipoleVelocity(a, s, z0, x, y);
    assert v == Scale(k, Square(d));
    ConjugateTimes(v, Square(d));
    DotScale(k, Square(d));
    CrossScale(k, Square(d));
    Mag2Square(d);
    DipoleSquareFactor(a, s, r2);
  }

  /**
    The dipole velocity is the conjugate of the derivative of its complex
    potential A / (s·z − z0), i.e. conj(v)·(s·z − z0)² = −A·s, when the dipole
    sits at the origin or has input scale 1.
   */
  lemma DipoleMatchesPotential(a: real, s: real, z0: Complex, x: real, y: real)
    requires s != 0.0
    requires Offset(z0, x, y) != Zero
    requires z0 == CZero || s == 1.0
    ensures CMul(Conj(AsComplex(DipoleVelocity(a, s, z0, x, y))), AsComplex(Square(Offset(z0, s * x, s * y))))
         == Complex(-(a * s), 0.0)
  {
    var c := Conj(AsComplex(DipoleVelocity(a, s, z0, x, y)));
    var d := Offset(z0, x, y);
    DipoleConjugate(a, s, z0, x, y);
    if s == 1.0 {
      assert Offset(z0, s * x, s * y) == d;
    } else {
      assert Offset(z0, s * x, s * y) == Scale(s, d);
      SquareScale(s, d);
      ConjugateTimesScaled(c, s * s, Square(d));
      ScaledQuotient(a, s);
    }
  }

  /**
    For a dipole away from the origin with input scale s, s² ≠ 1, the velocity
    is NOT the conjugate derivative of the dipole potential: at z = 0,
    conj(v)·(s·z − z0)² is −A / s where the derivative gives −A·s.
   */
  lemma DipoleMismatchAtOrigin(a: real, s: real, z0: Complex)
    requires a != 0.0 && s != 0.0 && s * s != 1.0
    requires z0 != CZero
    ensures Offset(z0, 0.0, 0.0) != Zero
    ensures CMul(Conj(AsComplex(DipoleVelocity(a, s, z0, 0.0, 0.0))), AsComplex(Square(Offset(z0, s * 0.0, s * 0.0))))
         == Complex(-a / s, 0.0)
    ensures -a / s != -(a * s)
  {
    assert Offset(z0, s * 0.0, s * 0.0) == Offset(z0, 0.0, 0.0);
    DipoleConjugate(a, s, z0, 0.0, 0.0);
    QuotientDiffers(a, s);
  }

  // ------------------------------------------------------------ vector helpers

  lemma SquareScale(k: real, u: Vec)
    ensures Square(Scale(k, u)) == Scale(k * k, Square(u))
  {
    calc {
      (k * u.x) * (k * u.x) - (k * u.y) * (k * u.y);
      (k * k) * (u.x * u.x - u.y * u.y);
    }
    calc {
      2.0 * (k * u.x) * (k * u.y);
      (k * k) * (2.0 * u.x * u.y);
    }
  }

  lemma ConjugateTimesScaled(c: Complex, k: real, u: Vec)
    ensures CMul(c, AsComplex(Scale(k, u))) == CScale(k, CMul(c, AsComplex(u)))
  {
    calc {
      c.re * (k * u.x) - c.im * (k * u.y);
      k * (c.re * u.x - c.im * u.y);
    }
    calc {
      c.re * (k * u.y) + c.im * (k * u.x);
      k * (c.re * u.y + c.im * u.x);
    }
  }

  // ------------------------------------------------------------ real arithmetic

  /** ((c / n)² · n) · n = c² for n ≠ 0. */
  lemma InverseSquare(c: real, n: real)
    requires n != 0.0
    ensures ((c / n) * (c / n) * n) * n == c * c
  {
    var k := c / n;
    QuotientTimes(c, n);
    assert k * n == c;
    calc {
      (k * k * n) * n;
      (k * n) * (k * n);
      c * c;
    }
  }

  /** With k = (−a / n / n)·(1 / s): (k² · (n·n)) · (s·s) · (n·n) = a². */
  lemma DipoleFactor(a: real, s: real, n: real)
    requires s != 0.0 && n != 0.0
    ensures ((((-a / n) / n) * (1.0 / s)) * (((-a / n) / n) * (1.0 / s)) * (n * n)) * (s * s) * (n * n) == a * a
  {
    var k := ((-a / n) / n) * (1.0 / s);
    assert k * s == (-a / n) / n;
    assert ((-a / n) / n) * n == -a / n;
    assert (-a / n) * n == -a;
    var m := k * s * n * n;
    assert m == -a;
    calc {
      (k * k * (n * n)) * (s * s) * (n * n);
      m * m;
      a * a;
    }
  }

  /** (c / (n/4))·(1/2) = 2·(c / n). */
  lemma HalfDistanceFactor(c: real, n: real)
    requires n != 0.0
    ensures (c / (0.25 * n)) * 0.5 == 2.0 * (c / n)
  {
  }

  /** The dipole factor k(n) = (−a / n / n)·(1 / s) obeys k(n/4)·(1/4) = 4·k(n). */
  lemma DipoleHalfFactor(a: real, s: real, n: real)
    requires s != 0.0 && n != 0.0
    ensures (((-a / (0.25 * n)) / (0.25 * n)) * (1.0 / s)) * 0.25 == 4.0 * (((-a / n) / n) * (1.0 / s))
  {
    assert (-a / (0.25 * n)) == 4.0 * (-a / n);
    assert (4.0 * (-a / n)) / (0.25 * n) == 16.0 * ((-a / n) / n);
  }

  /** k(n)·(n·n) = −a / s for the dipole factor k(n) = (−a / n / n)·(1 / s). */
  lemma DipoleSquareFactor(a: real, s: real, n: real)
    requires s != 0.0 && n != 0.0
    ensures (((-a / n) / n) * (1.0 / s)) * (n * n) == -a / s
  {
    assert ((-a / n) / n) * (n * n) == -a;
  }

  /** (s·s)·(−a / s) = −(a·s). */
  lemma ScaledQuotient(a: real, s: real)
    requires s != 0.0
    ensures (s * s) * (-a / s) == -(a * s)
  {
  }

  /** −a / s and −(a·s) differ unless a = 0 or s² = 1. */
  lemma QuotientDiffers(a: real, s: real)
    requires a != 0.0 && s != 0.0 && s * s != 1.0
    ensures -a / s != -(a * s)
  {
    ProductNonZero(a, s * s - 1.0);
    assert a * (s * s) != a;
    QuotientTimes(-a, s);
  }

  lemma ProductNonZero(p: real, q: real)
    requires p != 0.0 && q != 0.0
    ensures p * q != 0.0
  {
  }

  /** (1·a / (x·x))·x = a / x. */
  lemma AxisQuotient(a: real, x: real)
    requires x != 0.0
    ensures (1.0 * a / (x * x)) * x == a / x
    ensures (1.0 * a / (x * x)) * 0.0 == 0.0
  {
  }
}
