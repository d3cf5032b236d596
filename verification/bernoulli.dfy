/**
  Pressure from Bernoulli's equation, and the mutable part of a flow object:
  its density `rho` and the reference state stored by
  `set_initial_conditions`, which `presion` needs.
 */
module Bernoulli {
  import opened Plane
  import opened Flows

  datatype Option<T> = None | Some(value: T)

  /** The stored initial condition: the velocity v0 at the reference point and the pressure p0 there. */
  datatype Reference = Reference(v0: Vec, p0: real)

  /** p = p0 + rho/2 · (|v0|² − |v|²), Bernoulli's equation along the flow. */
  function BernoulliPressure(rho: real, ref: Reference, v: Vec): real
  {
    ref.p0 + (rho / 2.0) * (Mag2(ref.v0) - Mag2(v))
  }

  // ------------------------------------------------------------ Bernoulli's equation

  /** p + rho/2·|v|² takes the same value p0 + rho/2·|v0|² at every point. */
  lemma BernoulliConstant(rho: real, ref: Reference, v: Vec)
    ensures BernoulliPressure(rho, ref, v) + (rho / 2.0) * Mag2(v) == ref.p0 + (rho / 2.0) * Mag2(ref.v0)
  {
    var h := rho / 2.0;
    calc {
      BernoulliPressure(rho, ref, v) + h * Mag2(v);
      ref.p0 + h * (Mag2(ref.v0) - Mag2(v)) + h * Mag2(v);
      { assert h * (Mag2(ref.v0) - Mag2(v)) == h * Mag2(ref.v0) - h * Mag2(v); }
      ref.p0 + h * Mag2(ref.v0);
    }
  }

  /** Wherever the speed equals the reference speed, the pressure is the reference pressure. */
  lemma PressureAtReferenceSpeed(rho: real, ref: Reference, v: Vec)
    requires Mag2(v) == Mag2(ref.v0)
    ensures BernoulliPressure(rho, ref, v) == ref.p0
  {
    BernoulliConstant(rho, ref, v);
  }

  /** With a non-negative density the pressure never exceeds p0 + rho/2·|v0|², reached at rest. */
  lemma PressureBound(rho: real, ref: Reference, v: Vec)
    requires rho >= 0.0
    ensures BernoulliPressure(rho, ref, v) <= ref.p0 + (rho / 2.0) * Mag2(ref.v0)
    ensures v == Zero ==> BernoulliPressure(rho, ref, v) == ref.p0 + (rho / 2.0) * Mag2(ref.v0)
  {
    BernoulliConstant(rho, ref, v);
    Mag2NonNegative(v);
    var h := rho / 2.0;
    assert h >= 0.0;
    assert h * Mag2(v) >= 0.0 by {
      NonNegativeProduct(h, Mag2(v));
    }
  }

  /** With a positive density, the faster of two points has the lower pressure, and conversely. */
  lemma FasterMeansLowerPressure(rho: real, ref: Reference, v: Vec, w: Vec)
    requires rho > 0.0
    ensures Mag2(v) < Mag2(w) <==> BernoulliPressure(rho, ref, v) > BernoulliPressure(rho, ref, w)
  {
    BernoulliConstant(rho, ref, v);
    BernoulliConstant(rho, ref, w);
    var h := rho / 2.0;
    assert h > 0.0;
    StrictScaling(h, Mag2(v), Mag2(w));
  }

  lemma NonNegativeProduct(a: real, b: real)
    requires a >= 0.0 && b >= 0.0
    ensures a * b >= 0.0
  {
  }

  /** Multiplying by a positive h preserves and reflects strict order. */
  lemma StrictScaling(h: real, m: real, n: real)
    requires h > 0.0
    ensures m < n <==> h * m < h * n
  {
    if m < n {
      assert h * n - h * m == h * (n - m);
      assert h * (n - m) > 0.0;
    }
    if n <= m {
      NonNegativeProduct(h, m - n);
      assert h * m - h * n == h * (m - n);
    }
  }

  // ------------------------------------------------------------ the flow object

  /**
    A flow object: its geometry (what it computes), its density and its
    initial condition, which starts unset.
   */
  class FlowObject {
    const geometry: Flow
    var rho: real
    var initialCondition: Option<Reference>

    /** `Flujo.__init__`: the initial condition starts unset. */
    constructor (geometry: Flow, rho: real)
      ensures this.geometry == geometry && this.rho == rho
      ensures initialCondition == None
    {
      this.geometry := geometry;
      this.rho := rho;
      initialCondition := None;
    }

    /**
      `set_initial_conditions`: stores the velocity at (x0, y0) together with
      p0. If evaluating the velocity fails, the error propagates and nothing
      is stored.
     */
    method SetInitialConditions(x0: real, y0: real, p0: real) returns (r: Result<Reference>)
      requires VelocityRegular(geometry, Vec(x0, y0))
      modifies this`initialCondition
      ensures Velocity(geometry, Vec(x0, y0)).Ok? ==>
        r == Ok(Reference(Velocity(geometry, Vec(x0, y0)).value, p0)) && initialCondition == Some(r.value)
      ensures Velocity(geometry, Vec(x0, y0)).Err? ==>
        r == Err(Velocity(geometry, Vec(x0, y0)).failure) && initialCondition == old(initialCondition)
    {
      var v := Velocity(geometry, Vec(x0, y0));
      match v {
        case Err(e) =>
          r := Err(e);
        case Ok(v0) =>
          var ref := Reference(v0, p0);
          initialCondition := Some(ref);
          r := Ok(ref);
      }
    }

    /**
      `presion`: raises when no initial condition is set; otherwise the
      Bernoulli pressure at (x, y), or the velocity's error.
     */
    method Pressure(x: real, y: real) returns (r: Result<real>)
      requires VelocityRegular(geometry, Vec(x, y))
      ensures initialCondition.None? ==> r == Err(InitialConditionsUnset)
      ensures initialCondition.Some? && Velocity(geometry, Vec(x, y)).Err? ==>
        r == Err(Velocity(geometry, Vec(x, y)).failure)
      ensures initialCondition.Some? && Velocity(geometry, Vec(x, y)).Ok? ==>
        r == Ok(BernoulliPressure(rho, initialCondition.value, Velocity(geometry, Vec(x, y)).value))
    {
      if initialCondition.None? {
        return Err(InitialConditionsUnset);
      }
      var ref := initialCondition.value;
      var v := Velocity(geometry, Vec(x, y));
      match v {
        case Err(e) =>
          r := Err(e);
        case Ok(vel) =>
          r := Ok(BernoulliPressure(rho, ref, vel));
      }
    }

    /** `f + g`: a new composite object with density 1 and no initial condition. */
    method Plus(other: FlowObject) returns (r: FlowObject)
      ensures fresh(r)
      ensures r.geometry == Add(geometry, other.geometry)
      ensures r.rho == 1.0 && r.initialCondition == None
    {
      r := new FlowObject(Add(geometry, other.geometry), 1.0);
    }

    /** `f * k` and `k * f`: TypeError unless k is a number, else a new composite object with density 1. */
    method Times(k: Scalar) returns (r: Result<FlowObject>)
      ensures k.NonNumeric? <==> r.Err?
      ensures k.NonNumeric? ==> r == Err(NonNumericFactor)
      ensures r.Ok? ==> fresh(r.value) && r.value.geometry == Multiply(geometry, k).value
      ensures r.Ok? ==> r.value.rho == 1.0 && r.value.initialCondition == None
    {
      var g := Multiply(geometry, k);
      match g {
        case Err(e) =>
          r := Err(e);
        case Ok(flow) =>
          var obj := new FlowObject(flow, 1.0);
          r := Ok(obj);
      }
    }
  }

  /**
    Setting the initial conditions at a point and asking for the pressure at
    that same point gives back p0, whatever the density; a velocity error at
    that point is raised by the first call.
   */
  method PressureAtReferencePoint(obj: FlowObject, x0: real, y0: real, p0: real) returns (r: Result<real>)
    requires VelocityRegular(obj.geometry, Vec(x0, y0))
    modifies obj`initialCondition
    ensures obj.rho == old(obj.rho)
    ensures Velocity(obj.geometry, Vec(x0, y0)).Ok? ==> r == Ok(p0)
    ensures Velocity(obj.geometry, Vec(x0, y0)).Err? ==> r == Err(Velocity(obj.geometry, Vec(x0, y0)).failure)
  {
    var stored := obj.SetInitialConditions(x0, y0, p0);
    if stored.Err? {
      return Err(stored.failure);
    }
    r := obj.Pressure(x0, y0);
    PressureAtReferenceSpeed(obj.rho, stored.value, stored.value.v0);
  }
}
