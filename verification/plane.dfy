/**
  Plane vectors and complex numbers over exact reals.

  Velocities are `Vec` values (vx, vy); complex potentials and flow locations
  are `Complex` values. Only the arithmetic the flow model needs is defined,
  with the algebraic facts about it that the flow lemmas rely on. The solver
  is weak at chaining non-linear facts, so the proofs below go one rewriting
  step at a time.
 */
module Plane {

  /** A vector in the plane; velocities are vectors. */
  datatype Vec = Vec(x: real, y: real)

  const Zero := Vec(0.0, 0.0)

  function Plus(u: Vec, v: Vec): Vec
  {
    Vec(u.x + v.x, u.y + v.y)
  }

  function Scale(k: real, v: Vec): Vec
  {
    Vec(k * v.x, k * v.y)
  }

  function Dot(u: Vec, v: Vec): real
  {
    u.x * v.x + u.y * v.y
  }

  /** The z-component of the cross product u × v. */
  function Cross(u: Vec, v: Vec): real
  {
    u.x * v.y - u.y * v.x
  }

  /** u turned a quarter turn counter-clockwise. */
  function Perp(u: Vec): Vec
  {
    Vec(-u.y, u.x)
  }

  /** The vector of the complex square (u.x + i·u.y)², i.e. (x² − y², 2xy). */
  function Square(u: Vec): Vec
  {
    Vec(u.x * u.x - u.y * u.y, 2.0 * u.x * u.y)
  }

  /** The squared Euclidean norm, which `hypot(vx, vy) ** 2` computes. */
  function Mag2(v: Vec): real
  {
    v.x * v.x + v.y * v.y
  }

  /** A complex number re + i·im. */
  datatype Complex = Complex(re: real, im: real)

  const CZero := Complex(0.0, 0.0)

  function CAdd(p: Complex, q: Complex): Complex
  {
    Complex(p.re + q.re, p.im + q.im)
  }

  /** Multiplication by a real scalar. */
  function CScale(k: real, p: Complex): Complex
  {
    Complex(k * p.re, k * p.im)
  }

  function CMul(p: Complex, q: Complex): Complex
  {
    Complex(p.re * q.re - p.im * q.im, p.re * q.im + p.im * q.re)
  }

  function Conj(p: Complex): Complex
  {
    Complex(p.re, -p.im)
  }

  /** The complex number with the coordinates of v. */
  function AsComplex(v: Vec): Complex
  {
    Complex(v.x, v.y)
  }

  /** Complex division p / q by a non-zero divisor. */
  function CDiv(p: Complex, q: Complex): Complex
    requires q != CZero
  {
    var n := Mag2(Vec(q.re, q.im));
    Mag2Positive(Vec(q.re, q.im));
    Complex((p.re * q.re + p.im * q.im) / n, (p.im * q.re - p.re * q.im) / n)
  }

  // ---------------------------------------------------------------- norms

  lemma SquarePositive(a: real)
    requires a != 0.0
    ensures a * a > 0.0
  {
  }

  lemma SquareNonNegative(a: real)
    ensures a * a >= 0.0
  {
  }

  /** A squared norm is never negative. */
  lemma Mag2NonNegative(v: Vec)
    ensures Mag2(v) >= 0.0
  {
    SquareNonNegative(v.x);
    SquareNonNegative(v.y);
  }

  lemma SumOfSquaresPositive(a: real, b: real)
    requires a != 0.0 || b != 0.0
    ensures a * a + b * b > 0.0
  {
    SquareNonNegative(a);
    SquareNonNegative(b);
    if a != 0.0 {
      SquarePositive(a);
    } else {
      SquarePositive(b);
    }
  }

  /** Only the zero vector has squared norm zero. */
  lemma Mag2Positive(v: Vec)
    requires v != Zero
    ensures Mag2(v) > 0.0
  {
    SumOfSquaresPositive(v.x, v.y);
    calc {
      Mag2(v);
      v.x * v.x + v.y * v.y;
    > 0.0;
    }
  }

  // ---------------------------------------------------------------- scaling

  lemma Mag2Scale(k: real, u: Vec)
    ensures Mag2(Scale(k, u)) == (k * k) * Mag2(u)
  {
    calc {
      Mag2(Scale(k, u));
      (k * u.x) * (k * u.x) + (k * u.y) * (k * u.y);
      (k * k) * (u.x * u.x + u.y * u.y);
    }
  }

  lemma DotScale(k: real, u: Vec)
    ensures Dot(Scale(k, u), u) == k * Mag2(u)
  {
    calc {
      Dot(Scale(k, u), u);
      (k * u.x) * u.x + (k * u.y) * u.y;
      k * (u.x * u.x + u.y * u.y);
    }
  }

  lemma CrossScale(k: real, u: Vec)
    ensures Cross(Scale(k, u), u) == 0.0
  {
    calc {
      Cross(Scale(k, u), u);
      (k * u.x) * u.y - (k * u.y) * u.x;
      0.0;
    }
  }

  /** Scaling distributes over a sum of vectors. */
  lemma ScalePlus(k: real, u: Vec, v: Vec)
    ensures Scale(k, Plus(u, v)) == Plus(Scale(k, u), Scale(k, v))
  {
    assert k * (u.x + v.x) == k * u.x + k * v.x;
    assert k * (u.y + v.y) == k * u.y + k * v.y;
  }

  lemma ScaleScale(j: real, k: real, u: Vec)
    ensures Scale(j, Scale(k, u)) == Scale(j * k, u)
  {
    assert j * (k * u.x) == (j * k) * u.x;
    assert j * (k * u.y) == (j * k) * u.y;
  }

  // ---------------------------------------------------------------- rotations

  lemma DotScalePerp(k: real, u: Vec)
    ensures Dot(Scale(k, Perp(u)), u) == 0.0
    ensures Cross(u, Scale(k, Perp(u))) == k * Mag2(u)
    ensures Mag2(Perp(u)) == Mag2(u)
  {
    calc {
      Dot(Scale(k, Perp(u)), u);
      (k * -u.y) * u.x + (k * u.x) * u.y;
      0.0;
    }
    calc {
      Cross(u, Scale(k, Perp(u)));
      u.x * (k * u.x) - u.y * (k * -u.y);
      k * (u.x * u.x + u.y * u.y);
    }
    calc {
      Mag2(Perp(u));
      (-u.y) * (-u.y) + u.x * u.x;
      u.x * u.x + u.y * u.y;
    }
  }

  /** |w²| = |w|²: the norm of a complex square is the square of the norm. */
  lemma Mag2Square(u: Vec)
    ensures Mag2(Square(u)) == Mag2(u) * Mag2(u)
  {
    var a, b := u.x * u.x, u.y * u.y;
    calc {
      Mag2(Square(u));
      (u.x * u.x - u.y * u.y) * (u.x * u.x - u.y * u.y) + (2.0 * u.x * u.y) * (2.0 * u.x * u.y);
      { assert (2.0 * u.x * u.y) * (2.0 * u.x * u.y) == 4.0 * (a * b); }
      (a - b) * (a - b) + 4.0 * (a * b);
      (a + b) * (a + b);
      (u.x * u.x + u.y * u.y) * (u.x * u.x + u.y * u.y);
    }
  }

  // ---------------------------------------------------------------- quotients

  lemma QuotientCancel(c: real, n: real)
    requires n != 0.0
    ensures (c * n) / n == c
  {
  }

  lemma QuotientTimes(c: real, n: real)
    requires n != 0.0
    ensures (c / n) * n == c
  {
  }

  lemma QuotientCombine(a: real, b: real, c: real, d: real, n: real)
    requires n != 0.0
    ensures (a / n) * c - (b / n) * d == (a * c - b * d) / n
    ensures (a / n) * d + (b / n) * c == (a * d + b * c) / n
  {
  }

  /** (p·conj q)·q = p·|q|², written out componentwise. */
  lemma ConjugateProduct(pr: real, pi: real, qr: real, qi: real)
    ensures (pr * qr + pi * qi) * qr - (pi * qr - pr * qi) * qi == pr * (qr * qr + qi * qi)
    ensures (pr * qr + pi * qi) * qi + (pi * qr - pr * qi) * qr == pi * (qr * qr + qi * qi)
  {
  }

  /** The componentwise form of (p / q)·q = p, for n = |q|² > 0. */
  lemma QuotientProduct(pr: real, pi: real, qr: real, qi: real, n: real)
    requires n == qr * qr + qi * qi && n != 0.0
    ensures ((pr * qr + pi * qi) / n) * qr - ((pi * qr - pr * qi) / n) * qi == pr
    ensures ((pr * qr + pi * qi) / n) * qi + ((pi * qr - pr * qi) / n) * qr == pi
  {
    var a, b := pr * qr + pi * qi, pi * qr - pr * qi;
    ConjugateProduct(pr, pi, qr, qi);
    QuotientCombine(a, b, qr, qi, n);
    calc {
      (a / n) * qr - (b / n) * qi;
      (a * qr - b * qi) / n;
      (pr * n) / n;
      { QuotientCancel(pr, n); }
      pr;
    }
    calc {
      (a / n) * qi + (b / n) * qr;
      (a * qi + b * qr) / n;
      (pi * n) / n;
      { QuotientCancel(pi, n); }
      pi;
    }
  }

  /** For a non-zero divisor, CDiv(p, q) is a value whose product with q is p. */
  lemma DivisionInverse(p: Complex, q: Complex)
    requires q != CZero
    ensures CMul(CDiv(p, q), q) == p
  {
    var n := Mag2(Vec(q.re, q.im));
    Mag2Positive(Vec(q.re, q.im));
    QuotientProduct(p.re, p.im, q.re, q.im, n);
  }
}
