/**
  The flow algebra of flujos_esenciales.py: the elementary flows (uniform
  stream, source, irrotational vortex, dipole), their composites, and what
  each of them answers at one point of the plane.

  A flow's geometry never changes after construction, so it is a value here
  (`Flow`); the mutable part of a flow object, its density and its stored
  initial condition, is the class in the Bernoulli module.

  Python exceptions become `Err` results:
  - a Uniform built with a direction it does not recognise never sets its
    angle, so any later use of it fails with AttributeError (`MissingAlpha`);
  - the dipole's velocity divides by its input scale (`ZeroDivision`);
  - multiplying a flow by something that is not an int or a float raises
    TypeError (`NonNumericFactor`);
  - asking for the pressure before the initial conditions are set raises
    (`InitialConditionsUnset`).
  Inside a composite the children are evaluated in order and the first
  exception propagates, so the first failing child decides the error.
 */
module Flows {
  import opened Plane
  import opened Kernels

  datatype Failure = MissingAlpha | ZeroDivision | NonNumericFactor | InitialConditionsUnset

  datatype Result<T> = Ok(value: T) | Err(failure: Failure)

  /**
    The `direction` argument of Uniform: 'x' sets the angle to 0. Any value
    the constructor does not recognise leaves the angle unset.
   */
  datatype Direction = AlongX | Unrecognised

  datatype Flow =
    | Uniform(a: real, scaleIn: real, direction: Direction)
    | Source(a: real, z0: Complex, scaleIn: real)
    | Vortex(a: real, z0: Complex, scaleIn: real)
    | Dipole(a: real, z0: Complex, scaleIn: real)
    | Composite(flows: seq<Flow>, scaleIn: real, scaleOut: real)

  /** The factor of `flow * k`: Python ints and floats are accepted, anything else is not. */
  datatype Scalar = IntScalar(i: int) | FloatScalar(r: real) | NonNumeric

  // ------------------------------------------------------------ velocity

  /**
    The points where every kernel `f` reaches is evaluated away from its
    singular point (where the source code would divide by r = 0).
   */
  predicate VelocityRegular(f: Flow, p: Vec)
    decreases f
  {
    match f
    case Uniform(_, _, _) => true
    case Source(_, z0, s) => Offset(z0, s * p.x, s * p.y) != Zero
    case Vortex(_, z0, s) => Offset(z0, s * p.x, s * p.y) != Zero
    case Dipole(_, z0, s) => s == 0.0 || Offset(z0, p.x, p.y) != Zero
    case Composite(cs, si, _) => forall i :: 0 <= i < |cs| ==> VelocityRegular(cs[i], Scale(si, p))
  }

  /** `velocidad` of a flow at the point p = (x, y). */
  function Velocity(f: Flow, p: Vec): Result<Vec>
    requires VelocityRegular(f, p)
    decreases f
  {
    match f
    case Uniform(a, s, dir) =>
      if dir == AlongX then Ok(UniformVelocity(a, s)) else Err(MissingAlpha)
    case Source(a, z0, s) => Ok(SourceVelocity(a, s, z0, p.x, p.y))
    case Vortex(a, z0, s) => Ok(VortexVelocity(a, s, z0, p.x, p.y))
    case Dipole(a, z0, s) =>
      if s == 0.0 then Err(ZeroDivision) else Ok(DipoleVelocity(a, s, z0, p.x, p.y))
    case Composite(cs, si, so) =>
      match SumVelocities(cs, Scale(si, p))
      case Ok(v) => Ok(Scale(so, v))
      case Err(e) => Err(e)
  }

  /**
    The velocities of `cs` at one point, added up child after child; the
    first child that fails decides the result.
   */
  function SumVelocities(cs: seq<Flow>, p: Vec): Result<Vec>
    requires forall i :: 0 <= i < |cs| ==> VelocityRegular(cs[i], p)
    decreases cs
  {
    if |cs| == 0 then Ok(Zero)
    else PlusResult(SumVelocities(cs[..|cs| - 1], p), Velocity(cs[|cs| - 1], p))
  }

  /** Adds two evaluated velocities, keeping the first failure. */
  function PlusResult(r: Result<Vec>, q: Result<Vec>): Result<Vec>
  {
    match r
    case Err(e) => Err(e)
    case Ok(u) =>
      match q
      case Err(e) => Err(e)
      case Ok(v) => Ok(Plus(u, v))
  }

  /** Scales an evaluated velocity, keeping a failure. */
  function ScaleResult(k: real, r: Result<Vec>): Result<Vec>
  {
    match r
    case Err(e) => Err(e)
    case Ok(v) => Ok(Scale(k, v))
  }

  // ------------------------------------------------------------ complex potential

  /**
    The points where every logarithm and every quotient of `f` is taken away
    from zero.
   */
  predicate PotentialRegular(f: Flow, p: Vec)
    decreases f
  {
    match f
    case Uniform(_, _, _) => true
    case Source(_, z0, s) => Offset(z0, s * p.x, s * p.y) != Zero
    case Vortex(_, z0, s) => Offset(z0, s * p.x, s * p.y) != Zero
    case Dipole(_, z0, s) => Offset(z0, s * p.x, s * p.y) != Zero
    case Composite(cs, si, _) => forall i :: 0 <= i < |cs| ==> PotentialRegular(cs[i], Scale(si, p))
  }

  /**
    `funcion`, the complex potential of a flow at p = (x, y). The complex
    logarithm of the source and the vortex is the parameter `ln`.
   */
  function ComplexPotential(f: Flow, ln: Complex -> Complex, p: Vec): Result<Complex>
    requires PotentialRegular(f, p)
    decreases f
  {
    match f
    case Uniform(a, s, dir) =>
      if dir == AlongX then Ok(CScale(a, Complex(s * p.x, s * p.y))) else Err(MissingAlpha)
    case Source(a, z0, s) => Ok(CScale(a, ln(AsComplex(Offset(z0, s * p.x, s * p.y)))))
    case Vortex(a, z0, s) => Ok(CMul(Complex(0.0, -a), ln(AsComplex(Offset(z0, s * p.x, s * p.y)))))
    case Dipole(a, z0, s) => Ok(CDiv(Complex(a, 0.0), AsComplex(Offset(z0, s * p.x, s * p.y))))
    case Composite(cs, si, so) =>
      match SumPotentials(cs, ln, Scale(si, p))
      case Ok(w) => Ok(CScale(so, w))
      case Err(e) => Err(e)
  }

  /** The complex potentials of `cs` added up child after child; the first failure decides. */
  function SumPotentials(cs: seq<Flow>, ln: Complex -> Complex, p: Vec): Result<Complex>
    requires forall i :: 0 <= i < |cs| ==> PotentialRegular(cs[i], p)
    decreases cs
  {
    if |cs| == 0 then Ok(CZero)
    else
      match SumPotentials(cs[..|cs| - 1], ln, p)
      case Err(e) => Err(e)
      case Ok(acc) =>
        match ComplexPotential(cs[|cs| - 1], ln, p)
        case Err(e) => Err(e)
        case Ok(w) => Ok(CAdd(acc, w))
  }

  /** `corriente`: the imaginary part of the complex potential. */
  function Stream(f: Flow, ln: Complex -> Complex, p: Vec): Result<real>
    requires PotentialRegular(f, p)
  {
    match ComplexPotential(f, ln, p)
    case Ok(w) => Ok(w.im)
    case Err(e) => Err(e)
  }

  /**
    `potencial`: the real part of the complex potential, except that Uniform
    overrides it with the imaginary part.
   */
  function Potential(f: Flow, ln: Complex -> Complex, p: Vec): Result<real>
    requires PotentialRegular(f, p)
  {
    match ComplexPotential(f, ln, p)
    case Ok(w) => Ok(if f.Uniform? then w.im else w.re)
    case Err(e) => Err(e)
  }

  // ------------------------------------------------------------ the operators

  /** `f + g`: a composite of the two, with both scales 1. */
  function Add(f: Flow, g: Flow): Flow
  {
    Composite([f, g], 1.0, 1.0)
  }

  /**
    `f * k` and `k * f` (the right-hand form delegates to the left-hand one):
    a composite of `f` alone with output scale k.
   */
  function Multiply(f: Flow, k: Scalar): Result<Flow>
  {
    match k
    case IntScalar(i) => Ok(Composite([f], 1.0, i as real))
    case FloatScalar(r) => Ok(Composite([f], 1.0, r))
    case NonNumeric => Err(NonNumericFactor)
  }

  /** The real value of a numeric factor. */
  function ScalarValue(k: Scalar): real
    requires !k.NonNumeric?
  {
    match k
    case IntScalar(i) => i as real
    case FloatScalar(r) => r
  }
}
