# Single-voxel Bloch simulation, modelled in Dafny

This project models the simulation engine of `algorithms/bloch/bloch.py`.
A voxel holds one magnetisation vector `m = (Mx, My, Mz)`. Two transitions
change it:

- an instantaneous RF pulse (`perturb_state_with_b1`), which rotates `m` by
  the flip angle about the transverse axis at the vector's own phase;
- one time step DT (`evolve_state`). It relaxes the vector toward the
  equilibrium `(0, 0, m0)` and, in the laboratory frame, precesses it
  about z.

Two pulse sequences drive a voxel and sample it into a preallocated
signal array:

- free induction decay (`FIDSequence.run`): one 90-degree pulse, then
  sample-then-step for a fixed number of steps;
- spin echo (`SESequence.run`): one 90-degree pulse per repetition. Row r
  is sampled only at the step whose counter equals the echo time.

The model works over exact reals. The transcendental values enter as
parameters:

- `Tissue(e1, e2, m0)` carries `e1 = exp(-DT/t1)` and `e2 = exp(-DT/t2)`.
- An `Angle` is a (cos, sin) pair.
- `Sim` bundles the module-wide settings: the reference frame, the
  precession angle `2*pi*GAMMA*B0*DT` of one step, and the map from a state
  to its transverse phase.

Three modules, one per file:

- `Vectors` (`vectors.dfy`): 3-vectors and 3x3 matrices, with the matrix
  product as numpy's `@`.
- `Magnetisation` (`voxel.dfy`):
  - the `Voxel` class, whose field `m` the pulse and step methods overwrite;
  - the source's matrix builders `_zrot`, `_xrot`, `_rfrot` and `_relax`, as
    pure functions;
  - closed-form reference definitions: `Precess`, `Nutate`, `Relaxed`,
    `Evolve`, `Perturb` and `EvolveN`.

  The methods are proved to compute the closed forms through the source's
  own matrices. The physical facts are then proved about the closed forms.
- `Sequences` (`sequences.dfy`): `ApplyRf`, and the two sequences as
  immutable datatypes whose `Run` methods mutate the voxel and fill a fresh
  array in loops.

Two points about the code:

- The model keeps the source's order (relax, then rotate both `A` and `B`)
  in `EvolveMap` and `Voxel.EvolveState`. In exact arithmetic the two
  orders agree (`EvolveOrderIrrelevant`, `PrecessionCommutesWithDecay`), so
  only floating-point rounding can tell them apart.
- The spin-echo step counter is `num_reps * r + n`, as line 135 computes
  it. Under the demonstration configuration, repetition r is therefore
  sampled at step `10000 - 10r` after its pulse (`DemoEveryRowWritten`).

## Model

| member | source | states |
|---|---|---|
| Magnetisation.Voxel.constructor | algorithms/bloch/bloch.py:24-31 | a new voxel holds the given initial magnetisation and tissue parameters |
| Magnetisation.Voxel.ReadState | algorithms/bloch/bloch.py:33-34 | returns the current magnetisation and changes nothing |
| Magnetisation.Voxel.PerturbWithB1 | algorithms/bloch/bloch.py:36-39 | the new m is the old m rotated by -phi about z, by alpha about x, then by phi about z, where phi is the phase of the old m |
| Magnetisation.RfRotate | algorithms/bloch/bloch.py:38-39 | `Rrf @ m`, computed through the fused `_rfrot` matrix `Rz(phi) @ Rx(alpha) @ Rz(-phi)`, equals precess(-phi), then nutate(alpha), then precess(phi) applied one after another |
| Magnetisation.ZRot | algorithms/bloch/bloch.py:66-71 | the `_zrot` matrix entry for entry; its action is specified by `ZRotIsPrecession` |
| Magnetisation.XRot | algorithms/bloch/bloch.py:73-78 | the `_xrot` matrix entry for entry; its action is specified by `XRotIsNutation` |
| Magnetisation.RfRot | algorithms/bloch/bloch.py:80-85 | the product `Rz(phi) @ Rx(alpha) @ Rz(-phi)`, with `Rz(-phi)` built from (cos, -sin); its action is specified by `RfRotate` |
| Magnetisation.Relax | algorithms/bloch/bloch.py:56-64 | the pair (`diag(e2, e2, e1)`, `(0, 0, m0*(1-e1))`); its action is specified by `RelaxIsRelaxation` and `DecayMatrix` |
| Magnetisation.EvolveMap | algorithms/bloch/bloch.py:49-52 | the pair (RelA, RelB), left-multiplied by Rz in the lab frame; its action is specified by `EvolveMapAgrees` |
| Magnetisation.ZRotIsPrecession | algorithms/bloch/bloch.py:66-71 | `_zrot(phi) @ v` rotates (x, y) by phi and keeps z |
| Magnetisation.XRotIsNutation | algorithms/bloch/bloch.py:73-78 | `_xrot(alpha) @ v` rotates (y, z) by alpha and keeps x |
| Magnetisation.RelaxIsRelaxation | algorithms/bloch/bloch.py:56-64 | `A @ m + B` from `_relax` decays Mx and My by e2 and takes Mz to e1*Mz + m0*(1-e1) |
| Magnetisation.DecayMatrix | algorithms/bloch/bloch.py:58-62 | the matrix `A = diag(e2, e2, e1)` scales x and y by e2 and z by e1 |
| Magnetisation.Voxel.EvolveState | algorithms/bloch/bloch.py:45-54 | the new m is one step of relaxation and, in the lab frame, precession applied to the old m; the tissue is unchanged |
| Magnetisation.EvolveMapAgrees | algorithms/bloch/bloch.py:49-54 | the fused affine map `(Rz @ A) @ m + Rz @ B` equals relaxing and then precessing m |
| Magnetisation.PrecessionCommutesWithDecay | algorithms/bloch/bloch.py:51-52 | `Rz @ A` and `A @ Rz` are the same linear map, because x and y share the decay factor e2 |
| Magnetisation.PrecessDecayCommute | algorithms/bloch/bloch.py:58-71 | precessing the decayed vector equals decaying the precessed vector |
| Magnetisation.PrecessPreservesLength | algorithms/bloch/bloch.py:66-71 | for a unit (cos, sin) pair, a z-rotation keeps Mz and Mx^2 + My^2 |
| Magnetisation.NutatePreservesLength | algorithms/bloch/bloch.py:73-78 | for a unit (cos, sin) pair, an x-rotation keeps Mx and abs(m)^2 |
| Magnetisation.PerturbPreservesNorm | algorithms/bloch/bloch.py:36-39 | an RF pulse preserves abs(m)^2 for every flip angle and every phase on the unit circle |
| Magnetisation.PerturbLongitudinal | algorithms/bloch/bloch.py:36-39 | a pulse on (0, 0, z) gives Mz = cos(alpha)*z and transverse length^2 (sin(alpha)*z)^2, whatever the phase |
| Magnetisation.RightAnglePulseTips | algorithms/bloch/bloch.py:36-39 | a 90-degree pulse takes (0, 0, k) to Mz = 0 with transverse length^2 k^2 |
| Magnetisation.StraightAnglePulseInverts | algorithms/bloch/bloch.py:36-39 | a 180-degree pulse takes (0, 0, k) to (0, 0, -k) |
| Magnetisation.EvolveRotatingFrame | algorithms/bloch/bloch.py:49-54 | outside the lab frame a step maps (Mx, My, Mz) to (e2*Mx, e2*My, e1*Mz + m0*(1-e1)) |
| Magnetisation.EvolveLongitudinal | algorithms/bloch/bloch.py:49-54 | in either frame Mz' = e1*Mz + m0*(1-e1), so Mz' - m0 = e1*(Mz - m0) |
| Magnetisation.EvolveTransverse | algorithms/bloch/bloch.py:49-54 | in either frame a step scales Mx^2 + My^2 by exactly e2^2 |
| Magnetisation.EvolveOrderIrrelevant | algorithms/bloch/bloch.py:49-54 | precessing after relaxing equals relaxing after precessing |
| Magnetisation.EquilibriumIsFixedPoint | algorithms/bloch/bloch.py:45-64 | in both frames a step leaves (0, 0, m0) unchanged |
| Magnetisation.EvolveApproachesEquilibrium | algorithms/bloch/bloch.py:45-64 | when e1 and e2 lie in (0, 1], a step never moves Mz away from m0 and never lengthens the transverse part |
| Magnetisation.OffsetScaledEachStep | algorithms/bloch/bloch.py:45-54 | every step scales the quantity Mz - m0 by e1 |
| Magnetisation.TransverseScaledEachStep | algorithms/bloch/bloch.py:45-54 | every step scales the quantity Mx^2 + My^2 by e2^2 |
| Magnetisation.EvolveNScaled | algorithms/bloch/bloch.py:114-116 | a quantity that every step scales by q is scaled by q^n after n steps |
| Magnetisation.EvolveNLongitudinal | algorithms/bloch/bloch.py:114-116 | after n steps Mz - m0 is e1^n times what it was, in either frame |
| Magnetisation.EvolveNTransverse | algorithms/bloch/bloch.py:114-116 | after n steps Mx^2 + My^2 is e2^(2n) times what it was, in either frame |
| Magnetisation.EquilibriumStays | algorithms/bloch/bloch.py:114-116 | any number of steps leaves the equilibrium unchanged |
| Magnetisation.EvolveNShift | algorithms/bloch/bloch.py:114-116 | one step followed by n more steps is n + 1 steps |
| Sequences.ApplyRf | algorithms/bloch/bloch.py:95-97 | pulses the voxel and returns that same voxel object |
| Sequences.Trace | algorithms/bloch/bloch.py:113-116 | a trace of n samples has length n, and sample k is the state after k steps |
| Sequences.FidSequence.Run | algorithms/bloch/bloch.py:111-117 | pulses once, then returns a fresh array equal to the trace of numSteps samples from the post-pulse state; row 0 is the post-pulse state, and the voxel ends numSteps steps on |
| Sequences.FidStartsTipped | algorithms/bloch/bloch.py:112-115 | from rest (0, 0, k), the first FID sample has Mz = 0 and transverse length^2 k^2 |
| Sequences.TraceSteps | algorithms/bloch/bloch.py:114-116 | each FID row is one step on from the row before it |
| Sequences.TraceScaled | algorithms/bloch/bloch.py:114-116 | a quantity that every step scales by q (Mz - m0 by e1, Mx^2 + My^2 by e2^2) is scaled by q^j at row j of a trace |
| Sequences.TraceTransverse | algorithms/bloch/bloch.py:114-116 | the FID decay envelope: row j has e2^(2j) times the transverse length^2 of row 0 |
| Sequences.TraceLongitudinal | algorithms/bloch/bloch.py:114-116 | row j has e1^j times the distance Mz - m0 of row 0 |
| Sequences.FidLongitudinalRecovery | algorithms/bloch/bloch.py:111-116 | from rest (0, 0, k), FID row j has Mz - m0 = -m0 * e1^j: Mz recovers from 0 toward m0 |
| Sequences.SeSequence.StepIndex | algorithms/bloch/bloch.py:135 | the step counter `num_reps * r + n` as written; `EchoOffset` states what it means for sampling |
| Sequences.SeSequence.EchoOffset | algorithms/bloch/bloch.py:134-137 | gives the step n < stepsPerRep of repetition r with num_reps*r + n equal to the echo tick, if one exists; no other step matches, so a repetition samples at most once |
| Sequences.SeSequence.RunRepetition | algorithms/bloch/bloch.py:133-139 | one repetition pulses and then steps stepsPerRep times; row r becomes the state at the echo step if there is one and is otherwise unchanged; no other row changes |
| Sequences.SeSequence.Run | algorithms/bloch/bloch.py:130-140 | returns a fresh array of numReps rows. Row r is the state after repetition r's pulse and EchoOffset(r) steps when the echo step exists, and otherwise the array's initial contents. The voxel ends after numReps repetitions of pulse-then-steps |
| Sequences.EveryRowWritten | algorithms/bloch/bloch.py:132-137 | if num_reps*(num_reps-1) <= echo tick < steps per repetition, every row r is written, at step echo - num_reps*r |
| Sequences.DemoEveryRowWritten | algorithms/bloch/bloch.py:152 | for tr = 2e-5, te = 1e-5 and 10 repetitions at DT = 1e-9, every row is written: row r at step 10000 - 10r |
| Sequences.LateRepetitionNeverSampled | algorithms/bloch/bloch.py:135-137 | a repetition whose first step counter is already past the echo time never writes its row |

## Left out

- The `__main__` block and its matplotlib plotting (lines 146-163) are display only. The demonstration configuration appears only as `DemoEveryRowWritten`.
- Floating-point rounding is not modelled. The model works over exact reals, so `np.exp`, `np.cos` and `np.sin` appear only as their values: `e1`, `e2` and (cos, sin) pairs.
- The 90-degree flip angle `PI/2` is idealised as the exact pair (0, 1).
- Magnetisation.Voxel.PerturbWithB1: the phase `arctan(My / (Mx + 1e-8))` of line 37 is an arbitrary function `Sim.phaseOf`, assumed only to return (cos, sin) pairs on the unit circle. The epsilon, the quadrant behaviour of `arctan` and its difference from `atan2` are not modelled; none of the proved properties depends on the phase.
- `round(total_duration / DT)` and `round(tr / DT)` (lines 92 and 127) are not modelled. The step counts are natural-number fields of `FidSequence` and `SeSequence`. `Sequence.__init__` with its fixed duration 1e-5 becomes `FidSequence(numSteps)`. `SESequence.__init__` becomes `SeSequence(numReps, stepsPerRep, teTicks)`.
- Sequences.SeSequence.Run: the echo test `t == te` on floats (line 137) is modelled as equality of the integer step counter with `teTicks`, the echo time in whole steps. A run whose float product `i * DT` misses `te` by rounding is not captured.
- The unused fields `pos`, `t2star` and `num_isochromats` are not modelled. The no-op `perturb_state_with_b0` and `_apply_gradient` are not modelled, and neither is the abstract `Sequence.run`.
- GAMMA, B0 and DT enter only through `Sim.precession` and `Tissue`.
- The uninitialised rows of `np.empty` are the unspecified initial contents of a Dafny array. `SeSequence.Run` returns them as a ghost snapshot `blank`.
- The default arguments of `Voxel.__init__` (line 24: `t1=4e-3`, `t2=2e-3`, `m0=1`, `m_init=(0, 0, 1)`) are not modelled: the constructor takes the tissue and the initial state explicitly, and `e1`, `e2` are parameters rather than computed from `t1`, `t2`.
- Magnetisation.PrecessionCommutesWithDecay: `Rz @ A == A @ Rz` is stated as equality of the two matrices' action on every vector, not as entry-wise equality of the matrices.
