# Superposition of elementary potential flows

A model of the flow algebra in `flujos_esenciales.py` (ProyectoFluidos). That
file describes 2D potential flow as a superposition of elementary flows. The
elementary flows are the uniform stream (`Uniform`), the source (`Fuente`),
the irrotational vortex (`VorticeIrrotacional`) and the dipole (`Doblete`).
Their sums and scalings are `Composite`s. Each flow answers, at a point:

- its complex potential (`funcion`);
- its stream function (`corriente`, the imaginary part);
- its velocity potential (`potencial`, the real part);
- its velocity (`velocidad`);
- once a reference state is stored (`set_initial_conditions`), its pressure by
  Bernoulli's equation (`presion`).

The model works over exact reals, one point at a time:

- `plane.dfy` (`Plane`): vectors and complex numbers, and the algebra the
  proofs need.
- `kernels.dfy` (`Kernels`): the velocity kernels of the four elementary flows
  in closed form. The polar coordinates of the source code are reduced to
  rational expressions in the offset from the flow's location. Properties
  proved: radial/tangential direction, magnitude, decay under halving the
  distance, and agreement between velocity and complex potential.
- `flows.dfy` (`Flows`): the `Flow` datatype, `Velocity`, `ComplexPotential`,
  `Stream`, `Potential`, and the operators `Add` (`+`) and `Multiply`
  (`*`, `__rmul__`). Each Python exception becomes an `Err` result. When a
  composite has several failing children, the first one in order decides the
  error.
- `superposition.dfy` (`Superposition`): laws of the operators, including
  which error a combination reports.
- `evaluation.dfy` (`Evaluation`): the accumulation loops of
  `Composite.velocidad` and `Composite.funcion` as methods. Each is proved
  equal to the recursive function that defines it.
- `bernoulli.dfy` (`Bernoulli`): Bernoulli's pressure and its laws. Also the
  flow object as a class. Its density is set by the constructor only. Its
  initial condition is the one field updated in place, by
  `set_initial_conditions`.

Points of the code worth knowing:

- Densities do not propagate. No method passes a density to the children of
  a composite. `+` and `*` build composites with density 1, whatever the
  operands' densities (flujos_esenciales.py:48-62). The children's densities
  never enter a pressure.
- Singular points are not clamped. The source and vortex kernels divide by
  r = 0 at their centre, and numpy returns inf/NaN there. The model excludes
  those points by precondition (`VelocityRegular`, `PotentialRegular`).
- `Uniform.funcion` computes A·s·z·e^(+iα) (flujos_esenciales.py:99). With
  α = 0, the only angle modelled, this is A·s·z.
- `Uniform.potencial` returns the imaginary part, not the real part. So the
  potential of a uniform stream differs from that of the same stream wrapped
  in a composite (`UniformPotentialQuirk`).
- The dipole's velocity uses the unscaled point and divides by the input
  scale. Its `funcion` uses the scaled point. The two agree only when the
  dipole sits at the origin or has scale 1 (`DipoleMatchesPotential`). At
  other locations they disagree (`DipoleMismatchAtOrigin`).

Python ints (and bools, which are ints) and floats are the accepted factors
of `*`. Anything else raises TypeError.

## Model

| member | source | states |
|---|---|---|
| Kernels.UniformVelocity | flujos_esenciales.py:107-111 | computes the uniform stream's velocity for α = 0: (A·s·cos 0, A·s·sin 0) |
| Kernels.SourceVelocity | flujos_esenciales.py:125-134 | computes the source velocity at the input-scaled point: radial speed s·A/r along the offset from z0 |
| Kernels.VortexVelocity | flujos_esenciales.py:148-153 | computes the vortex velocity at the input-scaled point: tangential speed s·A/r, counter-clockwise of the offset from z0 |
| Kernels.DipoleVelocity | flujos_esenciales.py:167-174 | computes the dipole velocity at the unscaled point: (vr, vt) = −A/(r²·s)·(cos θ, sin θ) rotated back by θ |
| Flows.Velocity | flujos_esenciales.py:74-81 | computes `velocidad` of any flow: the kernel of an elementary flow, or the output-scaled sum for a composite; AttributeError for an unrecognised Uniform direction, ZeroDivisionError for a dipole of input scale 0 |
| Flows.SumVelocities | flujos_esenciales.py:75-80 | computes the in-order sum of the children's velocities at one point; the first failing child's error ends it |
| Flows.ComplexPotential | flujos_esenciales.py:68-72 | computes `funcion` of any flow: A·s·z for a Uniform along x (line 99), A·ln(s·z − z0) for a source (line 123), −i·A·ln(s·z − z0) for a vortex (line 146), A/(s·z − z0) for a dipole (line 165), the output-scaled sum for a composite |
| Flows.SumPotentials | flujos_esenciales.py:69-71 | computes the in-order sum of the children's complex potentials at one point; the first failing child's error ends it |
| Flows.Stream | flujos_esenciales.py:20-21 | computes `corriente`: the imaginary part of `funcion`, or its error |
| Flows.Potential | flujos_esenciales.py:23-24 | computes `potencial`: the real part of `funcion`, except the imaginary part for a Uniform (lines 104-105), or its error |
| Flows.Add | flujos_esenciales.py:48-49 | computes `f + g`: a composite of [f, g] with both scales 1 |
| Flows.Multiply | flujos_esenciales.py:51-58 | computes `f * k` and `k * f`: TypeError unless k is an int or float, else a composite of [f] with output scale k |
| Bernoulli.BernoulliPressure | flujos_esenciales.py:33 | computes P0 + rho/2·(‖v0‖² − ‖v‖²) |
| Superposition.UniformVelocityLaw | flujos_esenciales.py:84-111 | a Uniform's velocity is the same at every point; it is (A·s, 0) for direction 'x'; an unrecognised direction leaves the angle unset and fails with AttributeError |
| Kernels.SourceIsRadial | flujos_esenciales.py:125-134 | the source velocity is parallel to the scaled offset from z0 and points away from z0 for A·s > 0; the component along the offset is s·A/r, and ‖v‖² = (s·A)²/r² |
| Kernels.SourceOnAxis | flujos_esenciales.py:125-134 | a unit-scale source at the origin gives (A/x, 0) at (x, 0) |
| Kernels.SourceHalfDistance | flujos_esenciales.py:125-134 | halving the distance to a source doubles the velocity vector |
| Kernels.SourceMatchesPotential | flujos_esenciales.py:121-134 | the source velocity is the conjugate derivative of A·ln(s·z − z0): conj(v)·(s·z − z0) = A·s |
| Kernels.VortexIsTangential | flujos_esenciales.py:148-153 | the vortex velocity is orthogonal to the scaled offset and turns counter-clockwise for A·s > 0 (Cross(d, v) = s·A); ‖v‖² = (s·A)²/r² |
| Kernels.VortexOnAxis | flujos_esenciales.py:148-153 | a unit-scale vortex at the origin gives (0, A/x) at (x, 0) |
| Kernels.VortexHalfDistance | flujos_esenciales.py:148-153 | halving the distance to a vortex doubles the velocity vector |
| Kernels.VortexMatchesPotential | flujos_esenciales.py:144-153 | the vortex velocity is the conjugate derivative of −i·A·ln(s·z − z0): conj(v)·(s·z − z0) = −i·A·s |
| Kernels.DipoleMagnitude | flujos_esenciales.py:167-174 | the dipole's squared speed is A²/(s²·r⁴), with r measured from z0 without input scaling |
| Kernels.DipoleHalfDistance | flujos_esenciales.py:167-174 | halving the unscaled distance to a dipole multiplies the velocity vector by four |
| Kernels.DipoleConjugate | flujos_esenciales.py:167-174 | the dipole velocity as written satisfies conj(v)·(z − z0)² = −A/s over the unscaled offset |
| Kernels.DipoleMatchesPotential | flujos_esenciales.py:163-174 | when z0 = 0 or s = 1, the dipole velocity is the conjugate derivative of A/(s·z − z0): conj(v)·(s·z − z0)² = −A·s |
| Kernels.DipoleMismatchAtOrigin | flujos_esenciales.py:163-174 | at z = 0, for z0 ≠ 0, A ≠ 0 and s² ≠ 1, the dipole velocity gives −A/s where the derivative of its potential gives −A·s |
| Superposition.DipoleZeroScale | flujos_esenciales.py:169-170 | a dipole with input scale 0 fails with ZeroDivisionError at every point |
| Plane.DivisionInverse | flujos_esenciales.py:165 | the complex quotient used by the dipole potential, multiplied by the divisor, gives back the dividend |
| Superposition.SumVelocitiesAppend | flujos_esenciales.py:77-80 | summing children cs1 + cs2 sums cs1, then cs2, then adds the totals; a failure in cs1 wins |
| Superposition.SumVelocitiesFailure | flujos_esenciales.py:77-80 | the children's sum fails iff some child fails, and then with the error of the first failing child |
| Evaluation.EvalVelocity | flujos_esenciales.py:74-81 | the accumulation loop returns exactly `Velocity`; a child's error ends the loop with that error |
| Evaluation.EvalComplexPotential | flujos_esenciales.py:68-72 | the accumulation loop returns exactly `ComplexPotential`; a child's error ends the loop with that error |
| Superposition.AddVelocity | flujos_esenciales.py:48-49 | the velocity of f + g is the sum of the two velocities; if f fails, its error wins, else g's |
| Superposition.AddCommutes | flujos_esenciales.py:48-49 | f + g and g + f succeed together and then have equal velocities |
| Superposition.AddAssociates | flujos_esenciales.py:48-49 | (f + g) + h and f + (g + h) have the same velocity and the same error |
| Superposition.FlattenComposite | flujos_esenciales.py:61-81 | a composite of cs1 + cs2 behaves like the sum of a composite of cs1 and a composite of cs2 |
| Superposition.InputScaling | flujos_esenciales.py:61-81 | a composite of one flow with input scale s evaluates that flow at the point scaled by s |
| Superposition.MultiplyVelocity | flujos_esenciales.py:51-58 | f·k fails with TypeError iff k is not an int or float; otherwise its velocity is k times f's, and it fails where f fails |
| Superposition.MultiplyDistributes | flujos_esenciales.py:51-58 | (f + g)·k and f·k + g·k have the same velocity |
| Superposition.AddComplexPotential | flujos_esenciales.py:68-72 | the complex potential of f + g is the sum of the two; f's error wins |
| Superposition.AddPotential | flujos_esenciales.py:20-24 | the stream function of f + g is the sum of the two; so is the velocity potential when neither is a Uniform |
| Superposition.MultiplyComplexPotential | flujos_esenciales.py:51-72 | for an int or float k, the complex potential of f·k is k times f's; it fails exactly where f fails, with f's error |
| Superposition.MultiplyPotential | flujos_esenciales.py:51-55 | the stream function of f·k is k times f's; so is the velocity potential unless f is a Uniform; f·k fails where f fails |
| Superposition.UniformPotentialQuirk | flujos_esenciales.py:104-105 | a Uniform's potential is A·s·y (imaginary part); inside a composite with scales 1 it contributes A·s·x (real part) |
| Bernoulli.BernoulliConstant | flujos_esenciales.py:33 | p + rho/2·‖v‖² equals p0 + rho/2·‖v0‖² at every point |
| Bernoulli.PressureAtReferenceSpeed | flujos_esenciales.py:33 | wherever ‖v‖ = ‖v0‖ the pressure is p0 |
| Bernoulli.PressureBound | flujos_esenciales.py:33 | for rho ≥ 0 the pressure is at most p0 + rho/2·‖v0‖², with equality at rest |
| Bernoulli.FasterMeansLowerPressure | flujos_esenciales.py:33 | for rho > 0, one point is faster than another iff its pressure is lower |
| Bernoulli.FlowObject.constructor | flujos_esenciales.py:8-10 | a new flow object has the given density and no initial condition |
| Bernoulli.FlowObject.SetInitialConditions | flujos_esenciales.py:12-14 | stores (velocity at (x0, y0), P0) when the velocity evaluates; otherwise returns its error and leaves the stored condition unchanged |
| Bernoulli.FlowObject.Pressure | flujos_esenciales.py:26-33 | fails when no initial condition is set; otherwise returns the velocity's error or P0 + rho/2·(‖v0‖² − ‖v‖²) |
| Bernoulli.FlowObject.Plus | flujos_esenciales.py:48-49 | f + g is a new object holding the composite [f, g], with density 1 and no initial condition |
| Bernoulli.FlowObject.Times | flujos_esenciales.py:51-58 | f·k fails with TypeError iff k is not a number; otherwise it is a new object with output scale k, density 1 and no initial condition |
| Bernoulli.PressureAtReferencePoint | flujos_esenciales.py:12-33 | after setting the initial conditions at a point, the pressure there is P0, whatever the density; a velocity error there is raised by the setter |

## Left out

- The complex logarithm of `Fuente.funcion` and `VorticeIrrotacional.funcion` is the parameter `ln`. No property of numpy's `log` is assumed.
- Uniform directions 'y' and numeric angles are left out. They need cos and sin of floating-point angles. `Direction` models 'x' and unrecognised values only.
- `Uniform.flujo` (the real part of the uniform's complex potential) is left out. Nothing in the repository calls it.
- Points where a kernel divides by r = 0 are excluded by precondition. numpy would produce inf or NaN there. The preconditions also cover children after an earlier failing child, which Python never evaluates.
- The model evaluates one point at a time. numpy arrays, broadcasting and `Uniform.velocidad`'s `(len(x), len(y))` output shape are not modelled.
- Floating-point rounding is not modelled; all arithmetic is over exact reals.
- `cartesian_to_polar` and `polar_to_cartesian` are not modelled as such. The kernels use the equivalent rational forms, with cos θ = dx/r and sin θ = dy/r.
- `Custom` wraps caller-supplied callables and is not modelled.
- A right operand of `+` that is not a flow is not modelled. Python builds the composite and fails only on evaluation; `Add` takes two flows.
- Python composites hold their children by reference. Flow geometry never changes after construction, so the model holds children by value.
- `gui.py`, the plotting code and `main.py` are not part of this model.
