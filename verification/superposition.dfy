/**
  Superposition laws of the flow algebra: what `+`, `*` and the composite's
  input and output scales do to velocities and potentials, including which
  error a combination reports when one of its parts fails.
 */
module Superposition {
  import opened Plane
  import opened Flows
  import Kernels

  // ------------------------------------------------------------ sums of children

  lemma PlusZero(r: Result<Vec>)
    ensures PlusResult(r, Ok(Zero)) == r
    ensures PlusResult(Ok(Zero), r) == r
  {
  }

  lemma ScaleOne(r: Result<Vec>)
    ensures ScaleResult(1.0, r) == r
  {
    if r.Ok? {
      assert Scale(1.0, r.value) == r.value;
    }
  }

  /** A composite's velocity is its output scale times the children's total at the input-scaled point. */
  lemma CompositeVelocity(cs: seq<Flow>, si: real, so: real, p: Vec)
    requires forall i :: 0 <= i < |cs| ==> VelocityRegular(cs[i], Scale(si, p))
    ensures VelocityRegular(Composite(cs, si, so), p)
    ensures Velocity(Composite(cs, si, so), p) == ScaleResult(so, SumVelocities(cs, Scale(si, p)))
  {
  }

  lemma SumSingle(f: Flow, p: Vec)
    requires VelocityRegular(f, p)
    ensures SumVelocities([f], p) == Velocity(f, p)
  {
    assert [f][..0] == [];
    PlusZero(Velocity(f, p));
  }

  lemma SumPair(f: Flow, g: Flow, p: Vec)
    requires VelocityRegular(f, p) && VelocityRegular(g, p)
    ensures SumVelocities([f, g], p) == PlusResult(Velocity(f, p), Velocity(g, p))
  {
    assert [f, g][..1] == [f];
    SumSingle(f, p);
  }

  lemma PlusResultAssociates(r: Result<Vec>, q: Result<Vec>, t: Result<Vec>)
    ensures PlusResult(PlusResult(r, q), t) == PlusResult(r, PlusResult(q, t))
  {
  }

  /**
    Evaluating the children `cs1 + cs2` is evaluating `cs1`, then `cs2`, and
    adding the two totals; a failure in `cs1` wins over one in `cs2`.
   */
  lemma {:induction false} SumVelocitiesAppend(cs1: seq<Flow>, cs2: seq<Flow>, p: Vec)
    requires forall i :: 0 <= i < |cs1| ==> VelocityRegular(cs1[i], p)
    requires forall i :: 0 <= i < |cs2| ==> VelocityRegular(cs2[i], p)
    ensures forall i :: 0 <= i < |cs1 + cs2| ==> VelocityRegular((cs1 + cs2)[i], p)
    ensures SumVelocities(cs1 + cs2, p) == PlusResult(SumVelocities(cs1, p), SumVelocities(cs2, p))
    decreases |cs2|
  {
    if |cs2| == 0 {
      assert cs1 + cs2 == cs1;
      PlusZero(SumVelocities(cs1, p));
    } else {
      var n := |cs2| - 1;
      var cs := cs1 + cs2;
      assert cs[..|cs| - 1] == cs1 + cs2[..n];
      assert cs[|cs| - 1] == cs2[n];
      SumVelocitiesAppend(cs1, cs2[..n], p);
      PlusResultAssociates(SumVelocities(cs1, p), SumVelocities(cs2[..n], p), Velocity(cs2[n], p));
    }
  }

  /**
    The children fail exactly when one of them fails, and then with the
    failure of the first child that fails.
   */
  lemma {:induction false} SumVelocitiesFailure(cs: seq<Flow>, p: Vec)
    requires forall i :: 0 <= i < |cs| ==> VelocityRegular(cs[i], p)
    ensures SumVelocities(cs, p).Err? <==> exists i :: 0 <= i < |cs| && Velocity(cs[i], p).Err?
    ensures SumVelocities(cs, p).Err? ==>
      exists i :: 0 <= i < |cs| && Velocity(cs[i], p) == SumVelocities(cs, p) &&
        forall j :: 0 <= j < i ==> Velocity(cs[j], p).Ok?
    decreases |cs|
  {
    if |cs| > 0 {
      var n := |cs| - 1;
      var prefix := cs[..n];
      assert forall i :: 0 <= i < n ==> prefix[i] == cs[i];
      SumVelocitiesFailure(prefix, p);
      if SumVelocities(prefix, p).Err? {
        var i :| 0 <= i < n && Velocity(prefix[i], p) == SumVelocities(prefix, p) &&
          forall j :: 0 <= j < i ==> Velocity(prefix[j], p).Ok?;
        assert Velocity(cs[i], p) == SumVelocities(cs, p);
      } else if Velocity(cs[n], p).Err? {
        assert forall j :: 0 <= j < n ==> Velocity(cs[j], p).Ok? by {
          forall j | 0 <= j < n
            ensures Velocity(cs[j], p).Ok?
          {
            assert Velocity(prefix[j], p).Ok?;
          }
        }
        assert Velocity(cs[n], p) == SumVelocities(cs, p);
      } else {
        forall i | 0 <= i < |cs|
          ensures Velocity(cs[i], p).Ok?
        {
          if i < n {
            assert Velocity(prefix[i], p).Ok?;
          }
        }
      }
    }
  }

  // ------------------------------------------------------------ elementary flows

  /**
    A Uniform has the same velocity everywhere: (A·s, 0) for direction 'x',
    and AttributeError everywhere for a direction it does not recognise.
   */
  lemma UniformVelocityLaw(a: real, s: real, dir: Direction, p: Vec, p': Vec)
    ensures Velocity(Uniform(a, s, dir), p) == Velocity(Uniform(a, s, dir), p')
    ensures Velocity(Uniform(a, s, dir), p).Ok? <==> dir == AlongX
    ensures dir == AlongX ==> Velocity(Uniform(a, s, dir), p).value == Vec(a * s, 0.0)
    ensures dir == Unrecognised ==> Velocity(Uniform(a, s, dir), p) == Err(MissingAlpha)
  {
  }

  /** A dipole with input scale 0 fails with ZeroDivisionError at every point. */
  lemma DipoleZeroScale(a: real, z0: Complex, p: Vec)
    ensures Velocity(Dipole(a, z0, 0.0), p) == Err(ZeroDivision)
  {
  }

  // ------------------------------------------------------------ the operators

  /** The velocity of `f + g` is the sum of the two velocities; if `f` fails its error wins. */
  lemma AddVelocity(f: Flow, g: Flow, p: Vec)
    requires VelocityRegular(f, p) && VelocityRegular(g, p)
    ensures VelocityRegular(Add(f, g), p)
    ensures Velocity(Add(f, g), p) == PlusResult(Velocity(f, p), Velocity(g, p))
  {
    assert Scale(1.0, p) == p;
    CompositeVelocity([f, g], 1.0, 1.0, p);
    calc {
      Velocity(Add(f, g), p);
      ScaleResult(1.0, SumVelocities([f, g], p));
      { SumPair(f, g, p); }
      ScaleResult(1.0, PlusResult(Velocity(f, p), Velocity(g, p)));
      { ScaleOne(PlusResult(Velocity(f, p), Velocity(g, p))); }
      PlusResult(Velocity(f, p), Velocity(g, p));
    }
  }

  /**
    `f + g` and `g + f` succeed together and then have the same velocity
    (when both parts fail, each sum reports the error of its left part).
   */
  lemma AddCommutes(f: Flow, g: Flow, p: Vec)
    requires VelocityRegular(f, p) && VelocityRegular(g, p)
    ensures VelocityRegular(Add(f, g), p) && VelocityRegular(Add(g, f), p)
    ensures Velocity(Add(f, g), p).Ok? <==> Velocity(Add(g, f), p).Ok?
    ensures Velocity(Add(f, g), p).Ok? ==> Velocity(Add(f, g), p) == Velocity(Add(g, f), p)
  {
    AddVelocity(f, g, p);
    AddVelocity(g, f, p);
  }

  /** `(f + g) + h` and `f + (g + h)` give the same velocity and the same error. */
  lemma AddAssociates(f: Flow, g: Flow, h: Flow, p: Vec)
    requires VelocityRegular(f, p) && VelocityRegular(g, p) && VelocityRegular(h, p)
    ensures VelocityRegular(Add(Add(f, g), h), p) && VelocityRegular(Add(f, Add(g, h)), p)
    ensures Velocity(Add(Add(f, g), h), p) == Velocity(Add(f, Add(g, h)), p)
  {
    AddVelocity(f, g, p);
    AddVelocity(Add(f, g), h, p);
    AddVelocity(g, h, p);
    AddVelocity(f, Add(g, h), p);
    PlusResultAssociates(Velocity(f, p), Velocity(g, p), Velocity(h, p));
  }

  /**
    `f * k` fails with TypeError exactly when k is not a number; otherwise its
    velocity is k times that of `f`, and it fails where `f` fails.
   */
  lemma MultiplyVelocity(f: Flow, k: Scalar, p: Vec)
    requires VelocityRegular(f, p)
    ensures Multiply(f, k).Err? <==> k.NonNumeric?
    ensures k.NonNumeric? ==> Multiply(f, k).failure == NonNumericFactor
    ensures !k.NonNumeric? ==> VelocityRegular(Multiply(f, k).value, p)
    ensures !k.NonNumeric? ==>
      Velocity(Multiply(f, k).value, p) == ScaleResult(ScalarValue(k), Velocity(f, p))
  {
    if !k.NonNumeric? {
      assert Scale(1.0, p) == p;
      SumSingle(f, p);
      CompositeVelocity([f], 1.0, ScalarValue(k), p);
    }
  }

  /** Multiplication distributes over `+`: (f + g)·k and f·k + g·k have the same velocity. */
  lemma MultiplyDistributes(f: Flow, g: Flow, k: Scalar, p: Vec)
    requires VelocityRegular(f, p) && VelocityRegular(g, p)
    requires !k.NonNumeric?
    ensures VelocityRegular(Multiply(Add(f, g), k).value, p)
    ensures VelocityRegular(Add(Multiply(f, k).value, Multiply(g, k).value), p)
    ensures Velocity(Multiply(Add(f, g), k).value, p)
         == Velocity(Add(Multiply(f, k).value, Multiply(g, k).value), p)
  {
    AddVelocity(f, g, p);
    MultiplyVelocity(Add(f, g), k, p);
    MultiplyVelocity(f, k, p);
    MultiplyVelocity(g, k, p);
    AddVelocity(Multiply(f, k).value, Multiply(g, k).value, p);
    if Velocity(f, p).Ok? && Velocity(g, p).Ok? {
      ScalePlus(ScalarValue(k), Velocity(f, p).value, Velocity(g, p).value);
    }
  }

  /** A composite of one flow with input scale s evaluates that flow at the point scaled by s. */
  lemma InputScaling(f: Flow, s: real, p: Vec)
    requires VelocityRegular(f, Scale(s, p))
    ensures VelocityRegular(Composite([f], s, 1.0), p)
    ensures Velocity(Composite([f], s, 1.0), p) == Velocity(f, Scale(s, p))
  {
    SumSingle(f, Scale(s, p));
    CompositeVelocity([f], s, 1.0, p);
    ScaleOne(Velocity(f, Scale(s, p)));
  }

  /**
    Nesting does not matter: a composite of `cs1 + cs2` has the velocity (and
    the error) of the sum of a composite of `cs1` and a composite of `cs2`.
   */
  lemma FlattenComposite(cs1: seq<Flow>, cs2: seq<Flow>, p: Vec)
    requires forall i :: 0 <= i < |cs1| ==> VelocityRegular(cs1[i], p)
    requires forall i :: 0 <= i < |cs2| ==> VelocityRegular(cs2[i], p)
    ensures VelocityRegular(Composite(cs1 + cs2, 1.0, 1.0), p)
    ensures VelocityRegular(Add(Composite(cs1, 1.0, 1.0), Composite(cs2, 1.0, 1.0)), p)
    ensures Velocity(Composite(cs1 + cs2, 1.0, 1.0), p)
         == Velocity(Add(Composite(cs1, 1.0, 1.0), Composite(cs2, 1.0, 1.0)), p)
  {
    assert Scale(1.0, p) == p;
    SumVelocitiesAppend(cs1, cs2, p);
    var r1, r2 := SumVelocities(cs1, p), SumVelocities(cs2, p);
    CompositeVelocity(cs1 + cs2, 1.0, 1.0, p);
    CompositeVelocity(cs1, 1.0, 1.0, p);
    CompositeVelocity(cs2, 1.0, 1.0, p);
    ScaleOne(r1);
    ScaleOne(r2);
    ScaleOne(PlusResult(r1, r2));
    AddVelocity(Composite(cs1, 1.0, 1.0), Composite(cs2, 1.0, 1.0), p);
  }

  // ------------------------------------------------------------ potentials

  /** Adds two evaluated real fields, keeping the first failure. */
  function PlusReal(r: Result<real>, q: Result<real>): Result<real>
  {
    match r
    case Err(e) => Err(e)
    case Ok(u) =>
      match q
      case Err(e) => Err(e)
      case Ok(v) => Ok(u + v)
  }

  /** Adds two evaluated complex potentials, keeping the first failure. */
  function CPlusResult(r: Result<Complex>, q: Result<Complex>): Result<Complex>
  {
    match r
    case Err(e) => Err(e)
    case Ok(u) =>
      match q
      case Err(e) => Err(e)
      case Ok(v) => Ok(CAdd(u, v))
  }

  /** Scales an evaluated complex potential, keeping a failure. */
  function CScaleResult(k: real, r: Result<Complex>): Result<Complex>
  {
    match r
    case Err(e) => Err(e)
    case Ok(w) => Ok(CScale(k, w))
  }

  /** A composite's complex potential is its output scale times the children's total at the input-scaled point. */
  lemma CompositePotential(cs: seq<Flow>, si: real, so: real, ln: Complex -> Complex, p: Vec)
    requires forall i :: 0 <= i < |cs| ==> PotentialRegular(cs[i], Scale(si, p))
    ensures PotentialRegular(Composite(cs, si, so), p)
    ensures ComplexPotential(Composite(cs, si, so), ln, p) == CScaleResult(so, SumPotentials(cs, ln, Scale(si, p)))
  {
  }

  lemma CScaleOne(r: Result<Complex>)
    ensures CScaleResult(1.0, r) == r
  {
    if r.Ok? {
      assert CScale(1.0, r.value) == r.value;
    }
  }

  lemma SumPotentialsSingle(f: Flow, ln: Complex -> Complex, p: Vec)
    requires PotentialRegular(f, p)
    ensures SumPotentials([f], ln, p) == ComplexPotential(f, ln, p)
  {
    assert [f][..0] == [];
    var r := ComplexPotential(f, ln, p);
    if r.Ok? {
      assert CAdd(CZero, r.value) == r.value;
    }
  }

  lemma SumPotentialsPair(f: Flow, g: Flow, ln: Complex -> Complex, p: Vec)
    requires PotentialRegular(f, p) && PotentialRegular(g, p)
    ensures SumPotentials([f, g], ln, p) == CPlusResult(ComplexPotential(f, ln, p), ComplexPotential(g, ln, p))
  {
    assert [f, g][..1] == [f];
    SumPotentialsSingle(f, ln, p);
  }

  /** The complex potential of `f + g` is the sum of the two; if `f` fails its error wins. */
  lemma AddComplexPotential(f: Flow, g: Flow, ln: Complex -> Complex, p: Vec)
    requires PotentialRegular(f, p) && PotentialRegular(g, p)
    ensures PotentialRegular(Add(f, g), p)
    ensures ComplexPotential(Add(f, g), ln, p) == CPlusResult(ComplexPotential(f, ln, p), ComplexPotential(g, ln, p))
  {
    assert Scale(1.0, p) == p;
    CompositePotential([f, g], 1.0, 1.0, ln, p);
    var r := CPlusResult(ComplexPotential(f, ln, p), ComplexPotential(g, ln, p));
    calc {
      ComplexPotential(Add(f, g), ln, p);
      CScaleResult(1.0, SumPotentials([f, g], ln, p));
      { SumPotentialsPair(f, g, ln, p); }
      CScaleResult(1.0, r);
      { CScaleOne(r); }
      r;
    }
  }

  /** For a numeric k, the complex potential of `f * k` is k times that of `f`; it fails where `f` fails. */
  lemma MultiplyComplexPotential(f: Flow, k: Scalar, ln: Complex -> Complex, p: Vec)
    requires PotentialRegular(f, p) && !k.NonNumeric?
    ensures PotentialRegular(Multiply(f, k).value, p)
    ensures ComplexPotential(Multiply(f, k).value, ln, p) == CScaleResult(ScalarValue(k), ComplexPotential(f, ln, p))
  {
    var c := ScalarValue(k);
    assert Multiply(f, k).value == Composite([f], 1.0, c);
    assert Scale(1.0, p) == p;
    CompositePotential([f], 1.0, c, ln, p);
    calc {
      ComplexPotential(Composite([f], 1.0, c), ln, p);
      CScaleResult(c, SumPotentials([f], ln, p));
      { SumPotentialsSingle(f, ln, p); }
      CScaleResult(c, ComplexPotential(f, ln, p));
    }
  }

  /**
    The stream function of `f + g` is the sum of the two stream functions; so
    is the velocity potential when neither part is a Uniform.
   */
  lemma AddPotential(f: Flow, g: Flow, ln: Complex -> Complex, p: Vec)
    requires PotentialRegular(f, p) && PotentialRegular(g, p)
    ensures PotentialRegular(Add(f, g), p)
    ensures Stream(Add(f, g), ln, p) == PlusReal(Stream(f, ln, p), Stream(g, ln, p))
    ensures !f.Uniform? && !g.Uniform? ==>
      Potential(Add(f, g), ln, p) == PlusReal(Potential(f, ln, p), Potential(g, ln, p))
  {
    AddComplexPotential(f, g, ln, p);
  }

  /**
    For a numeric k, the stream function of `f * k` is k times that of `f`;
    so is the velocity potential unless `f` is a Uniform. `f * k` fails
    where `f` fails, with the same error.
   */
  lemma MultiplyPotential(f: Flow, k: Scalar, ln: Complex -> Complex, p: Vec)
    requires PotentialRegular(f, p) && !k.NonNumeric?
    ensures PotentialRegular(Multiply(f, k).value, p)
    ensures Stream(Multiply(f, k).value, ln, p).Ok? <==> Stream(f, ln, p).Ok?
    ensures Stream(f, ln, p).Err? ==> Stream(Multiply(f, k).value, ln, p) == Stream(f, ln, p)
    ensures Stream(f, ln, p).Ok? ==>
      Stream(Multiply(f, k).value, ln, p).value == ScalarValue(k) * Stream(f, ln, p).value
    ensures !f.Uniform? && Potential(f, ln, p).Ok? ==>
      Potential(Multiply(f, k).value, ln, p).value == ScalarValue(k) * Potential(f, ln, p).value
  {
    var g := Multiply(f, k).value;
    MultiplyComplexPotential(f, k, ln, p);
    var r := ComplexPotential(f, ln, p);
    if r.Ok? {
      var w := CScale(ScalarValue(k), r.value);
      assert ComplexPotential(g, ln, p) == Ok(w);
      assert Stream(g, ln, p) == Ok(w.im);
      assert Stream(f, ln, p) == Ok(r.value.im);
      assert !g.Uniform?;
      assert Potential(g, ln, p) == Ok(w.re);
    } else {
      assert ComplexPotential(g, ln, p) == Err(r.failure);
    }
  }

  /**
    Uniform overrides `potencial` with the imaginary part of its complex
    potential, while a composite uses the real part. So the potential of a
    Uniform is A·s·y, but the same Uniform inside a composite with scales 1
    (which is what `1 * U` and `U + other` build) contributes A·s·x.
   */
  lemma UniformPotentialQuirk(a: real, s: real, ln: Complex -> Complex, p: Vec)
    ensures Potential(Uniform(a, s, AlongX), ln, p).Ok?
    ensures Potential(Uniform(a, s, AlongX), ln, p).value == a * (s * p.y)
    ensures PotentialRegular(Composite([Uniform(a, s, AlongX)], 1.0, 1.0), p)
    ensures Potential(Composite([Uniform(a, s, AlongX)], 1.0, 1.0), ln, p).Ok?
    ensures Potential(Composite([Uniform(a, s, AlongX)], 1.0, 1.0), ln, p).value == a * (s * p.x)
  {
    var u := Uniform(a, s, AlongX);
    var w := CScale(a, Complex(s * p.x, s * p.y));
    assert ComplexPotential(u, ln, p).Ok? && ComplexPotential(u, ln, p).value == w;
    assert Scale(1.0, p) == p;
    assert [u][..0] == [];
    assert SumPotentials([u], ln, p).Ok? && SumPotentials([u], ln, p).value == CAdd(CZero, w);
    assert CScale(1.0, CAdd(CZero, w)) == w;
    CompositePotential([u], 1.0, 1.0, ln, p);
    assert ComplexPotential(Composite([u], 1.0, 1.0), ln, p).value == w;
  }
}
