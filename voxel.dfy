/** The magnetisation state of one voxel and its two transitions: an
    instantaneous RF pulse and one fixed time step of precession plus
    relaxation (algorithms/bloch/bloch.py, class Voxel). */
module Magnetisation {
  import opened Vectors

  /** The reference frame selector REF_FRAME: 'lab' or anything else,
      which the source treats as the rotating frame. */
  datatype Frame = Lab | Rotating

  /** The simulator's module-wide settings, fixed before any run:
      - frame: REF_FRAME;
      - precession: the angle 2*pi*GAMMA*B0*DT of one time step, by its
        cosine and sine;
      - phaseOf: the transverse phase arctan(My / (Mx + 1e-8)) of a state,
        by its cosine and sine. */
  datatype Sim = Sim(frame: Frame, precession: Angle, phaseOf: Vec3 -> Angle) {

    /** Both angles are genuine angles. */
    ghost predicate Valid() {
      precession.OnUnitCircle() && forall v :: phaseOf(v).OnUnitCircle()
    }
  }

  /** The relaxation parameters of a voxel for one time step DT:
      e1 = exp(-DT/t1), e2 = exp(-DT/t2), and the equilibrium magnitude m0. */
  datatype Tissue = Tissue(e1: real, e2: real, m0: real) {

    /** What exp(-DT/t) yields for positive relaxation times. */
    predicate Relaxing() {
      0.0 < e1 <= 1.0 && 0.0 < e2 <= 1.0
    }
  }

  /** The fully relaxed state (0, 0, m0). */
  function Equilibrium(t: Tissue): Vec3 {
    Vec3(0.0, 0.0, t.m0)
  }

  /** The rotation by `phi` about the z axis (`_zrot`). */
  function ZRot(phi: Angle): Mat3 {
    Mat3(Vec3(phi.cos, -phi.sin, 0.0),
         Vec3(phi.sin, phi.cos, 0.0),
         Vec3(0.0, 0.0, 1.0))
  }

  /** The rotation by `alpha` about the x axis (`_xrot`). */
  function XRot(alpha: Angle): Mat3 {
    Mat3(Vec3(1.0, 0.0, 0.0),
         Vec3(0.0, alpha.cos, -alpha.sin),
         Vec3(0.0, alpha.sin, alpha.cos))
  }

  /** The RF rotation `Rz(phi) @ Rx(alpha) @ Rz(-phi)` (`_rfrot`). */
  function RfRot(alpha: Angle, phi: Angle): Mat3 {
    MatMul(MatMul(ZRot(phi), XRot(alpha)), ZRot(phi.Negated()))
  }

  /** The relaxation operator of one step (`_relax(DT)`): the decay
      matrix diag(e2, e2, e1) and the recovery vector (0, 0, m0*(1-e1)). */
  function Relax(t: Tissue): (Mat3, Vec3) {
    (Mat3(Vec3(t.e2, 0.0, 0.0), Vec3(0.0, t.e2, 0.0), Vec3(0.0, 0.0, t.e1)),
     Vec3(0.0, 0.0, t.m0 * (1.0 - t.e1)))
  }

  /** The affine map (A, B) of one `evolve_state` step: the relaxation
      operator, left-multiplied by the precession Rz in the lab frame. */
  function EvolveMap(t: Tissue, sim: Sim): (Mat3, Vec3) {
    var rel := Relax(t);
    if sim.frame == Lab then
      (MatMul(ZRot(sim.precession), rel.0), Apply(ZRot(sim.precession), rel.1))
    else
      rel
  }

  // The same physics in closed form, one stage at a time: the reference
  // against which the matrices above are checked.

  /** Precession: v rotated by `phi` about the z axis. */
  function Precess(phi: Angle, v: Vec3): Vec3 {
    Vec3(phi.cos * v.x - phi.sin * v.y, phi.sin * v.x + phi.cos * v.y, v.z)
  }

  /** Nutation: v rotated by `alpha` about the x axis. */
  function Nutate(alpha: Angle, v: Vec3): Vec3 {
    Vec3(v.x, alpha.cos * v.y - alpha.sin * v.z, alpha.sin * v.y + alpha.cos * v.z)
  }

  /** Relaxation over one step: transverse decay by e2, longitudinal
      recovery toward m0 by e1. */
  function Relaxed(t: Tissue, m: Vec3): Vec3 {
    Vec3(t.e2 * m.x, t.e2 * m.y, t.e1 * m.z + t.m0 * (1.0 - t.e1))
  }

  /** The state after one step: relax, then, in the lab frame, precess. */
  function Evolve(t: Tissue, sim: Sim, m: Vec3): Vec3 {
    if sim.frame == Lab then Precess(sim.precession, Relaxed(t, m)) else Relaxed(t, m)
  }

  /** The state after an RF pulse of flip angle `alpha` about the
      transverse axis at the state's own phase phi: rotate by -phi about
      z, by alpha about x, and back by phi about z. */
  function Perturb(alpha: Angle, sim: Sim, m: Vec3): Vec3 {
    var phi := sim.phaseOf(m);
    Precess(phi, Nutate(alpha, Precess(phi.Negated(), m)))
  }

  /** evolve^n(m): the state after n consecutive steps. */
  function EvolveN(t: Tissue, sim: Sim, n: nat, m: Vec3): Vec3 {
    if n == 0 then m else Evolve(t, sim, EvolveN(t, sim, n - 1, m))
  }

  function Pow(b: real, n: nat): real {
    if n == 0 then 1.0 else b * Pow(b, n - 1)
  }

  function Abs(r: real): real {
    if r < 0.0 then -r else r
  }

  /** `Rrf @ m` with Rrf = `_rfrot(alpha, phi)`: the fused product
      `Rz(phi) @ Rx(alpha) @ Rz(-phi)` does what its three factors do one
      after another: precess by -phi, nutate by alpha, precess by phi. */
  method RfRotate(alpha: Angle, phi: Angle, m: Vec3) returns (r: Vec3)
    ensures r == Precess(phi, Nutate(alpha, Precess(phi.Negated(), m)))
  {
    var rrf := RfRot(alpha, phi);
    r := Apply(rrf, m);
    ApplyMatMul3(ZRot(phi), XRot(alpha), ZRot(phi.Negated()), m);
    var v1 := Apply(ZRot(phi.Negated()), m);
    var v2 := Apply(XRot(alpha), v1);
    ZRotIsPrecession(phi.Negated(), m);
    XRotIsNutation(alpha, v1);
    ZRotIsPrecession(phi, v2);
  }

  /** A voxel: the magnetisation `m`, which pulses and steps overwrite,
      and its tissue parameters, which nothing changes. */
  class Voxel {
    var m: Vec3
    const tissue: Tissue

    constructor (tissue: Tissue, mInit: Vec3)
      ensures this.tissue == tissue && m == mInit
    {
      this.tissue := tissue;
      m := mInit;
    }

    /** `read_state`: the current magnetisation, with no side effect. */
    method ReadState() returns (v: Vec3)
      ensures v == m
    {
      v := m;
    }

    /** `perturb_state_with_b1`: an instantaneous RF pulse of flip angle
        `alpha` about the transverse axis at the state's own phase. */
    method PerturbWithB1(alpha: Angle, sim: Sim)
      modifies this
      ensures m == Perturb(alpha, sim, old(m))
    {
      var phi := sim.phaseOf(m);
      m := RfRotate(alpha, phi, m);
    }

    /** `evolve_state`: one time step DT of relaxation and, in the lab
        frame, precession. */
    method EvolveState(sim: Sim)
      modifies this
      ensures m == Evolve(tissue, sim, old(m))
    {
      var rel := EvolveMap(tissue, sim);
      EvolveMapAgrees(tissue, sim, m);
      m := Add(Apply(rel.0, m), rel.1);
    }
  }

  // The source's matrices against the closed forms. These proofs are
  // equational only; the arithmetic lives in the lemmas further down.

  /** `_zrot(phi) @ v` is the precession of v by phi. */
  lemma ZRotIsPrecession(phi: Angle, v: Vec3)
    ensures Apply(ZRot(phi), v) == Precess(phi, v)
  {
  }

  /** `_xrot(alpha) @ v` is the nutation of v by alpha. */
  lemma XRotIsNutation(alpha: Angle, v: Vec3)
    ensures Apply(XRot(alpha), v) == Nutate(alpha, v)
  {
  }

  /** `A @ m + B` with (A, B) = `_relax(DT)` is the relaxation of m. */
  lemma RelaxIsRelaxation(t: Tissue, m: Vec3)
    ensures Add(Apply(Relax(t).0, m), Relax(t).1) == Relaxed(t, m)
  {
  }

  /** The decay part of relaxation: x and y scaled by e2, z by e1. */
  function Decay(t: Tissue, v: Vec3): Vec3 {
    Vec3(t.e2 * v.x, t.e2 * v.y, t.e1 * v.z)
  }

  /** The decay matrix of `_relax` is the decay part of relaxation. */
  lemma DecayMatrix(t: Tissue, v: Vec3)
    ensures Apply(Relax(t).0, v) == Decay(t, v)
  {
  }

  /** The fused affine map of a step, A @ m + B with A = Rz @ RelA and
      B = Rz @ RelB in the lab frame, relaxes and then precesses. */
  lemma EvolveMapAgrees(t: Tissue, sim: Sim, m: Vec3)
    ensures Add(Apply(EvolveMap(t, sim).0, m), EvolveMap(t, sim).1) == Evolve(t, sim, m)
  {
    var rel := Relax(t);
    RelaxIsRelaxation(t, m);
    if sim.frame == Lab {
      RotatedAffine(ZRot(sim.precession), rel.0, rel.1, m);
      ZRotIsPrecession(sim.precession, Relaxed(t, m));
    }
  }

  /** Rz @ A and A @ Rz, with A the decay matrix of `_relax`, are the same
      linear map: x and y share the one decay factor e2. */
  lemma PrecessionCommutesWithDecay(t: Tissue, phi: Angle, v: Vec3)
    ensures Apply(MatMul(ZRot(phi), Relax(t).0), v) == Apply(MatMul(Relax(t).0, ZRot(phi)), v)
  {
    var z, a := ZRot(phi), Relax(t).0;
    ApplyMatMul(z, a, v);
    ApplyMatMul(a, z, v);
    DecayMatrix(t, v);
    DecayMatrix(t, Apply(z, v));
    ZRotIsPrecession(phi, v);
    ZRotIsPrecession(phi, Decay(t, v));
    PrecessDecayCommute(t, phi, v);
  }

  lemma PrecessDecayCommute(t: Tissue, phi: Angle, v: Vec3)
    ensures Precess(phi, Decay(t, v)) == Decay(t, Precess(phi, v))
  {
    ScaleThenRotate(phi.cos, phi.sin, t.e2, v.x, v.y);
  }

  /** Rotating the plane vector (e*x, e*y) is scaling the rotated (x, y) by e. */
  lemma ScaleThenRotate(c: real, s: real, e: real, x: real, y: real)
    ensures c * (e * x) - s * (e * y) == e * (c * x - s * y)
    ensures s * (e * x) + c * (e * y) == e * (s * x + c * y)
  {
  }

  // Rotations

  /** Precession keeps the z component and the transverse length. */
  lemma PrecessPreservesLength(phi: Angle, v: Vec3)
    requires phi.OnUnitCircle()
    ensures Precess(phi, v).z == v.z
    ensures TransverseSq(Precess(phi, v)) == TransverseSq(v)
  {
    var c, s := phi.cos, phi.sin;
    calc {
      TransverseSq(Precess(phi, v));
      (c * v.x - s * v.y) * (c * v.x - s * v.y) + (s * v.x + c * v.y) * (s * v.x + c * v.y);
      (c * c + s * s) * (v.x * v.x + v.y * v.y);
      TransverseSq(v);
    }
  }

  /** Nutation keeps the x component and the length |v|. */
  lemma NutatePreservesLength(alpha: Angle, v: Vec3)
    requires alpha.OnUnitCircle()
    ensures Nutate(alpha, v).x == v.x
    ensures NormSq(Nutate(alpha, v)) == NormSq(v)
  {
    var c, s := alpha.cos, alpha.sin;
    var r := Nutate(alpha, v);
    calc {
      r.y * r.y + r.z * r.z;
      (c * v.y - s * v.z) * (c * v.y - s * v.z) + (s * v.y + c * v.z) * (s * v.y + c * v.z);
      (c * c + s * s) * (v.y * v.y + v.z * v.z);
      v.y * v.y + v.z * v.z;
    }
  }

  /** An RF pulse preserves |m|^2, whatever its flip angle and the phase. */
  lemma PerturbPreservesNorm(alpha: Angle, sim: Sim, m: Vec3)
    requires alpha.OnUnitCircle() && sim.Valid()
    ensures NormSq(Perturb(alpha, sim, m)) == NormSq(m)
  {
    var phi := sim.phaseOf(m);
    assert phi.OnUnitCircle();
    var v1 := Precess(phi.Negated(), m);
    var v2 := Nutate(alpha, v1);
    PrecessPreservesLength(phi.Negated(), m);
    NutatePreservesLength(alpha, v1);
    PrecessPreservesLength(phi, v2);
  }

  /** A pulse on a purely longitudinal state (0, 0, z) leaves
      Mz = cos(alpha)*z and transverse length |sin(alpha)*z|, whatever the
      phase. */
  lemma PerturbLongitudinal(alpha: Angle, sim: Sim, z: real)
    requires sim.Valid()
    ensures Perturb(alpha, sim, Vec3(0.0, 0.0, z)).z == alpha.cos * z
    ensures TransverseSq(Perturb(alpha, sim, Vec3(0.0, 0.0, z)))
         == (alpha.sin * z) * (alpha.sin * z)
  {
    var v := Vec3(0.0, 0.0, z);
    var phi := sim.phaseOf(v);
    assert phi.OnUnitCircle();
    assert Precess(phi.Negated(), v) == v;
    var w := Nutate(alpha, v);
    assert w == Vec3(0.0, -alpha.sin * z, alpha.cos * z);
    PrecessPreservesLength(phi, w);
  }

  /** A 90-degree pulse tips (0, 0, k) wholly into the transverse plane:
      Mz = 0 and transverse length |k|. */
  lemma RightAnglePulseTips(sim: Sim, k: real)
    requires sim.Valid()
    ensures Perturb(Angle(0.0, 1.0), sim, Vec3(0.0, 0.0, k)).z == 0.0
    ensures TransverseSq(Perturb(Angle(0.0, 1.0), sim, Vec3(0.0, 0.0, k))) == k * k
  {
    PerturbLongitudinal(Angle(0.0, 1.0), sim, k);
  }

  /** A 180-degree pulse inverts a longitudinal state: (0, 0, k) becomes
      (0, 0, -k). */
  lemma StraightAnglePulseInverts(sim: Sim, k: real)
    ensures Perturb(Angle(-1.0, 0.0), sim, Vec3(0.0, 0.0, k)) == Vec3(0.0, 0.0, -k)
  {
    var v := Vec3(0.0, 0.0, k);
    var phi := sim.phaseOf(v);
    assert Precess(phi.Negated(), v) == v;
    assert Nutate(Angle(-1.0, 0.0), v) == Vec3(0.0, 0.0, -k);
  }

  // One step

  /** In the rotating frame a step is relaxation alone:
      (Mx, My, Mz) becomes (e2*Mx, e2*My, e1*Mz + m0*(1-e1)). */
  lemma EvolveRotatingFrame(t: Tissue, sim: Sim, m: Vec3)
    requires sim.frame == Rotating
    ensures Evolve(t, sim, m) == Vec3(t.e2 * m.x, t.e2 * m.y, t.e1 * m.z + t.m0 * (1.0 - t.e1))
  {
  }

  /** In either frame, Mz' = e1*Mz + m0*(1-e1). */
  lemma EvolveLongitudinal(t: Tissue, sim: Sim, m: Vec3)
    ensures Evolve(t, sim, m).z == t.e1 * m.z + t.m0 * (1.0 - t.e1)
    ensures Evolve(t, sim, m).z - t.m0 == t.e1 * (m.z - t.m0)
  {
  }

  /** In either frame, Mx^2 + My^2 is scaled by exactly e2^2. */
  lemma EvolveTransverse(t: Tissue, sim: Sim, m: Vec3)
    requires sim.precession.OnUnitCircle()
    ensures TransverseSq(Evolve(t, sim, m)) == (t.e2 * t.e2) * TransverseSq(m)
  {
    var relaxed := Relaxed(t, m);
    assert TransverseSq(relaxed) == (t.e2 * t.e2) * TransverseSq(m);
    if sim.frame == Lab {
      PrecessPreservesLength(sim.precession, relaxed);
    }
  }

  /** Precessing and relaxing may be taken in either order: relaxation
      treats x and y alike and leaves z to Rz unchanged. */
  lemma EvolveOrderIrrelevant(t: Tissue, phi: Angle, m: Vec3)
    ensures Precess(phi, Relaxed(t, m)) == Relaxed(t, Precess(phi, m))
  {
    var c, s, e := phi.cos, phi.sin, t.e2;
    var rm, pm := Relaxed(t, m), Precess(phi, m);
    assert rm.x == e * m.x && rm.y == e * m.y;
    assert pm.x == c * m.x - s * m.y && pm.y == s * m.x + c * m.y && pm.z == m.z;
    ScaleThenRotate(c, s, e, m.x, m.y);
  }

  /** The equilibrium (0, 0, m0) is a fixed point of a step, in either frame. */
  lemma EquilibriumIsFixedPoint(t: Tissue, sim: Sim)
    ensures Evolve(t, sim, Equilibrium(t)) == Equilibrium(t)
  {
    assert Relaxed(t, Equilibrium(t)) == Equilibrium(t);
  }

  /** For relaxing tissue a step never moves Mz away from m0 and never
      lengthens the transverse part. */
  lemma EvolveApproachesEquilibrium(t: Tissue, sim: Sim, m: Vec3)
    requires t.Relaxing() && sim.precession.OnUnitCircle()
    ensures Abs(Evolve(t, sim, m).z - t.m0) <= Abs(m.z - t.m0)
    ensures TransverseSq(Evolve(t, sim, m)) <= TransverseSq(m)
  {
    EvolveLongitudinal(t, sim, m);
    var d := m.z - t.m0;
    assert Evolve(t, sim, m).z - t.m0 == t.e1 * d;
    if d >= 0.0 {
      assert t.e1 * d <= d;
    } else {
      assert t.e1 * d >= d;
    }
    EvolveTransverse(t, sim, m);
    assert t.e2 * t.e2 <= 1.0 by {
      assert t.e2 * t.e2 <= t.e2 * 1.0;
    }
    assert (t.e2 * t.e2) * TransverseSq(m) <= TransverseSq(m) by {
      assert TransverseSq(m) >= 0.0;
    }
  }

  // Many steps

  /** step^n(m), for any step. */
  function Iterate(step: Vec3 -> Vec3, n: nat, m: Vec3): Vec3 {
    if n == 0 then m else step(Iterate(step, n - 1, m))
  }

  /** evolve^n is the iteration of any function that agrees with evolve. */
  lemma {:induction false} EvolveNIsIterate(t: Tissue, sim: Sim, step: Vec3 -> Vec3, n: nat, m: Vec3)
    requires forall v :: step(v) == Evolve(t, sim, v)
    ensures EvolveN(t, sim, n, m) == Iterate(step, n, m)
  {
    if n > 0 {
      EvolveNIsIterate(t, sim, step, n - 1, m);
    }
  }

  /** A quantity that every step scales by q is scaled by q^n after n
      steps. */
  lemma {:induction false} ScaledEachStep(step: Vec3 -> Vec3, f: Vec3 -> real, q: real, n: nat, m: Vec3, a: real)
    requires forall v :: f(step(v)) == q * f(v)
    requires f(m) == a
    ensures f(Iterate(step, n, m)) == Pow(q, n) * a
  {
    if n > 0 {
      ScaledEachStep(step, f, q, n - 1, m, a);
      var prev := Iterate(step, n - 1, m);
      DecayStep(q, Pow(q, n - 1), Pow(q, n), a, f(prev), f(step(prev)));
    }
  }

  /** One decay step applied to p*a gives (q*p)*a. */
  lemma DecayStep(q: real, p: real, pNext: real, a: real, x: real, xNext: real)
    requires x == p * a && xNext == q * x && pNext == q * p
    ensures xNext == pNext * a
  {
  }

  /** A quantity that every evolution step scales by q^n
      after n steps. */
  lemma EvolveNScaled(t: Tissue, sim: Sim, f: Vec3 -> real, q: real, n: nat, m: Vec3, a: real)
    requires forall v :: f(Evolve(t, sim, v)) == q * f(v)
    requires f(m) == a
    ensures f(EvolveN(t, sim, n, m)) == Pow(q, n) * a
  {
    var step := (v: Vec3) => Evolve(t, sim, v);
    ScaledEachStep(step, f, q, n, m, a);
    EvolveNIsIterate(t, sim, step, n, m);
  }

  /** Every step scales the distance Mz - m0 by e1. */
  lemma OffsetScaledEachStep(t: Tissue, sim: Sim, offset: Vec3 -> real)
    requires forall v :: offset(v) == v.z - t.m0
    ensures forall v :: offset(Evolve(t, sim, v)) == t.e1 * offset(v)
  {
    forall v
      ensures offset(Evolve(t, sim, v)) == t.e1 * offset(v)
    {
      EvolveLongitudinal(t, sim, v);
    }
  }

  /** Every step scales Mx^2 + My^2 by e2^2. */
  lemma TransverseScaledEachStep(t: Tissue, sim: Sim, transverse: Vec3 -> real)
    requires sim.precession.OnUnitCircle()
    requires forall v :: transverse(v) == TransverseSq(v)
    ensures forall v :: transverse(Evolve(t, sim, v)) == (t.e2 * t.e2) * transverse(v)
  {
    forall v
      ensures transverse(Evolve(t, sim, v)) == (t.e2 * t.e2) * transverse(v)
    {
      EvolveTransverse(t, sim, v);
    }
  }

  /** After n steps Mz - m0 is e1^n times what it was. */
  lemma EvolveNLongitudinal(t: Tissue, sim: Sim, n: nat, m: Vec3)
    ensures EvolveN(t, sim, n, m).z - t.m0 == Pow(t.e1, n) * (m.z - t.m0)
  {
    OffsetScaledN(t, sim, (v: Vec3) => v.z - t.m0, n, m);
  }

  lemma OffsetScaledN(t: Tissue, sim: Sim, offset: Vec3 -> real, n: nat, m: Vec3)
    requires forall v :: offset(v) == v.z - t.m0
    ensures offset(EvolveN(t, sim, n, m)) == Pow(t.e1, n) * offset(m)
  {
    OffsetScaledEachStep(t, sim, offset);
    EvolveNScaled(t, sim, offset, t.e1, n, m, offset(m));
  }

  /** After n steps Mx^2 + My^2 is e2^(2n) times what it was. */
  lemma EvolveNTransverse(t: Tissue, sim: Sim, n: nat, m: Vec3)
    requires sim.precession.OnUnitCircle()
    ensures TransverseSq(EvolveN(t, sim, n, m)) == Pow(t.e2 * t.e2, n) * TransverseSq(m)
  {
    TransverseScaledN(t, sim, (v: Vec3) => TransverseSq(v), n, m);
  }

  lemma TransverseScaledN(t: Tissue, sim: Sim, transverse: Vec3 -> real, n: nat, m: Vec3)
    requires sim.precession.OnUnitCircle()
    requires forall v :: transverse(v) == TransverseSq(v)
    ensures transverse(EvolveN(t, sim, n, m)) == Pow(t.e2 * t.e2, n) * transverse(m)
  {
    TransverseScaledEachStep(t, sim, transverse);
    EvolveNScaled(t, sim, transverse, t.e2 * t.e2, n, m, transverse(m));
  }

  /** Any number of steps leaves the equilibrium where it is. */
  lemma {:induction false} EquilibriumStays(t: Tissue, sim: Sim, n: nat)
    ensures EvolveN(t, sim, n, Equilibrium(t)) == Equilibrium(t)
  {
    if n > 0 {
      EquilibriumStays(t, sim, n - 1);
      EquilibriumIsFixedPoint(t, sim);
    }
  }

  /** One step and then n more is n + 1 steps. */
  lemma {:induction false} EvolveNShift(t: Tissue, sim: Sim, n: nat, m: Vec3)
    ensures EvolveN(t, sim, n, Evolve(t, sim, m)) == EvolveN(t, sim, n + 1, m)
  {
    if n > 0 {
      EvolveNShift(t, sim, n - 1, m);
    }
  }
}
