/**
  The loops of Composite.velocidad and Composite.funcion: start from zero,
  evaluate each child at the input-scaled point and add its contribution,
  then multiply the total by the output scale. An exception raised by a child
  leaves the loop at once; here the method returns that child's error.
 */
module Evaluation {
  import opened Plane
  import opened Flows
  import opened Superposition

  /** `velocidad`, with the composite's accumulation loop; it agrees with `Velocity`. */
  method EvalVelocity(f: Flow, p: Vec) returns (r: Result<Vec>)
    requires VelocityRegular(f, p)
    ensures r == Velocity(f, p)
    decreases f
  {
    match f {
      case Composite(cs, si, so) =>
        var q := Scale(si, p);
        var total := Zero;
        var i := 0;
        while i < |cs|
          invariant 0 <= i <= |cs|
          invariant SumVelocities(cs[..i], q) == Ok(total)
        {
          var v := EvalVelocity(cs[i], q);
          assert cs[..i + 1][..i] == cs[..i];
          if v.Err? {
            assert cs[..i + 1] + cs[i + 1..] == cs;
            SumVelocitiesAppend(cs[..i + 1], cs[i + 1..], q);
            return Err(v.failure);
          }
          total := Plus(total, v.value);
          i := i + 1;
        }
        assert cs[..|cs|] == cs;
        r := Ok(Scale(so, total));
      case _ =>
        r := Velocity(f, p);
    }
  }

  /** Once a prefix of the children fails, the whole sum fails with the same error. */
  lemma {:induction false} SumPotentialsPrefixFailure(cs: seq<Flow>, ln: Complex -> Complex, p: Vec, k: nat)
    requires forall i :: 0 <= i < |cs| ==> PotentialRegular(cs[i], p)
    requires k <= |cs|
    requires SumPotentials(cs[..k], ln, p).Err?
    ensures SumPotentials(cs, ln, p) == SumPotentials(cs[..k], ln, p)
    decreases |cs|
  {
    if k == |cs| {
      assert cs[..k] == cs;
    } else {
      var n := |cs| - 1;
      assert cs[..n][..k] == cs[..k];
      SumPotentialsPrefixFailure(cs[..n], ln, p, k);
    }
  }

  /** `funcion`, with the composite's accumulation loop; it agrees with `ComplexPotential`. */
  method EvalComplexPotential(f: Flow, ln: Complex -> Complex, p: Vec) returns (r: Result<Complex>)
    requires PotentialRegular(f, p)
    ensures r == ComplexPotential(f, ln, p)
    decreases f
  {
    match f {
      case Composite(cs, si, so) =>
        var q := Scale(si, p);
        var total := CZero;
        var i := 0;
        while i < |cs|
          invariant 0 <= i <= |cs|
          invariant SumPotentials(cs[..i], ln, q) == Ok(total)
        {
          var w := EvalComplexPotential(cs[i], ln, q);
          assert cs[..i + 1][..i] == cs[..i];
          if w.Err? {
            SumPotentialsPrefixFailure(cs, ln, q, i + 1);
            return Err(w.failure);
          }
          total := CAdd(total, w.value);
          i := i + 1;
        }
        assert cs[..|cs|] == cs;
        r := Ok(CScale(so, total));
      case _ =>
        r := ComplexPotential(f, ln, p);
    }
  }
}
