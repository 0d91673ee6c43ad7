/** The pulse sequences of algorithms/bloch/bloch.py: drivers that pulse
    and step one voxel and sample its state into a preallocated signal
    array. A sequence never changes after construction, so each is a
    datatype whose `Run` method mutates only the voxel and a fresh array. */
module Sequences {
  import opened Vectors
  import opened Magnetisation

  datatype Option<T> = None | Some(value: T)

  /** The flip angle PI/2 of every pulse both sequences apply. */
  const RightAngle: Angle := Angle(0.0, 1.0)

  /** `Sequence._apply_rf`: pulse the voxel and hand the same voxel back. */
  method ApplyRf(voxel: Voxel, alpha: Angle, sim: Sim) returns (v: Voxel)
    modifies voxel
    ensures v == voxel
    ensures voxel.m == Perturb(alpha, sim, old(voxel.m))
  {
    voxel.PerturbWithB1(alpha, sim);
    v := voxel;
  }

  /** The samples of a free evolution of n steps from m, each taken before
      its step: m, evolve(m), ..., evolve^(n-1)(m). */
  function Trace(t: Tissue, sim: Sim, n: nat, m: Vec3): (r: seq<Vec3>)
    ensures |r| == n
    ensures forall k :: 0 <= k < n ==> r[k] == EvolveN(t, sim, k, m)
  {
    if n == 0 then []
    else
      EvolveNShiftAll(t, sim, n - 1, m);
      [m] + Trace(t, sim, n - 1, Evolve(t, sim, m))
  }

  /** Shifting every index of a trace by the one step taken first. */
  lemma EvolveNShiftAll(t: Tissue, sim: Sim, n: nat, m: Vec3)
    ensures forall k :: 0 <= k < n ==> EvolveN(t, sim, k, Evolve(t, sim, m)) == EvolveN(t, sim, k + 1, m)
  {
    forall k | 0 <= k < n
      ensures EvolveN(t, sim, k, Evolve(t, sim, m)) == EvolveN(t, sim, k + 1, m)
    {
      EvolveNShift(t, sim, k, m);
    }
  }

  /** `FIDSequence`: free induction decay over numSteps time steps
      (round(total_duration / DT) in the source). */
  datatype FidSequence = FidSequence(numSteps: nat) {

    /** `FIDSequence.run`: one 90-degree pulse, then numSteps rounds of
        sample-then-step. Row n is evolve^n of the post-pulse state, so row
        0 is the post-pulse state itself; the voxel is left numSteps steps
        further on. */
    method Run(voxel: Voxel, sim: Sim) returns (signal: array<Vec3>)
      modifies voxel
      ensures fresh(signal)
      ensures signal[..] == Trace(voxel.tissue, sim, numSteps, Perturb(RightAngle, sim, old(voxel.m)))
      ensures voxel.m == EvolveN(voxel.tissue, sim, numSteps, Perturb(RightAngle, sim, old(voxel.m)))
    {
      var v := ApplyRf(voxel, RightAngle, sim);
      ghost var t, post := voxel.tissue, v.m;
      signal := new Vec3[numSteps];
      var n := 0;
      while n < numSteps
        invariant 0 <= n <= numSteps
        invariant v == voxel && voxel.tissue == t
        invariant voxel.m == EvolveN(t, sim, n, post)
        invariant forall k {:trigger signal[k]} :: 0 <= k < n ==> signal[k] == EvolveN(t, sim, k, post)
      {
        var sample := v.ReadState();
        signal[n] := sample;
        v.EvolveState(sim);
        n := n + 1;
      }
      assert signal[..] == Trace(voxel.tissue, sim, numSteps, post);
    }
  }

  /** `SESequence`: numReps repetitions of stepsPerRep steps each
      (round(tr / DT) in the source), with the echo time te given as
      teTicks whole time steps. */
  datatype SeSequence = SeSequence(numReps: nat, stepsPerRep: nat, teTicks: nat) {

    /** The step counter i of step n in repetition r, computed as the
        source computes it: num_reps * r + n. */
    function StepIndex(r: nat, n: nat): nat {
      numReps * r + n
    }

    /** The step of repetition r whose counter equals the echo time, if
        there is one; there is never more than one. */
    function EchoOffset(r: nat): (o: Option<nat>)
      ensures o.Some? ==> o.value < stepsPerRep && StepIndex(r, o.value) == teTicks
      ensures forall n: nat :: n < stepsPerRep && StepIndex(r, n) == teTicks ==> o == Some(n)
    {
      if numReps * r <= teTicks && teTicks - numReps * r < stepsPerRep then
        Some(teTicks - numReps * r)
      else
        None
    }

    /** One repetition: a 90-degree pulse, then stepsPerRep steps. */
    function Repetition(t: Tissue, sim: Sim, m: Vec3): Vec3 {
      EvolveN(t, sim, stepsPerRep, Perturb(RightAngle, sim, m))
    }

    /** The state at the start of repetition r: r repetitions applied to m. */
    function StartOfRep(t: Tissue, sim: Sim, r: nat, m: Vec3): Vec3 {
      if r == 0 then m else Repetition(t, sim, StartOfRep(t, sim, r - 1, m))
    }

    /** The sample of repetition r, if its echo step exists: the state after
        that repetition's pulse and EchoOffset(r) steps. */
    function Echo(t: Tissue, sim: Sim, r: nat, m: Vec3): Option<Vec3> {
      match EchoOffset(r)
      case Some(n) => Some(EvolveN(t, sim, n, Perturb(RightAngle, sim, StartOfRep(t, sim, r, m))))
      case None => None
    }

    /** Row r of the returned signal: the echo sample when there is one,
        otherwise whatever the unwritten array held. */
    function Row(t: Tissue, sim: Sim, r: nat, m: Vec3, unwritten: Vec3): Vec3 {
      match Echo(t, sim, r, m)
      case Some(s) => s
      case None => unwritten
    }

    /** The body of repetition r of `SESequence.run`: one 90-degree pulse,
        then stepsPerRep steps, sampling into row r before the step whose
        counter equals the echo time. No other row changes. */
    method RunRepetition(voxel: Voxel, sim: Sim, signal: array<Vec3>, r: nat)
      requires r < signal.Length
      modifies voxel, signal
      ensures voxel.m == Repetition(voxel.tissue, sim, old(voxel.m))
      ensures signal[r] == (if EchoOffset(r).Some?
                            then EvolveN(voxel.tissue, sim, EchoOffset(r).value, Perturb(RightAngle, sim, old(voxel.m)))
                            else old(signal[r]))
      ensures forall j {:trigger signal[j]} :: 0 <= j < signal.Length && j != r ==> signal[j] == old(signal[j])
    {
      ghost var t := voxel.tissue;
      var v := ApplyRf(voxel, RightAngle, sim);
      ghost var post := v.m;
      var n := 0;
      while n < stepsPerRep
        invariant 0 <= n <= stepsPerRep
        invariant v == voxel && voxel.tissue == t
        invariant voxel.m == EvolveN(t, sim, n, post)
        invariant signal[r] == (if EchoOffset(r).Some? && EchoOffset(r).value < n
                                then EvolveN(t, sim, EchoOffset(r).value, post) else old(signal[r]))
        invariant forall j {:trigger signal[j]} :: 0 <= j < signal.Length && j != r ==> signal[j] == old(signal[j])
      {
        var i := numReps * r + n;
        if i == teTicks {
          var sample := v.ReadState();
          signal[r] := sample;
        }
        v.EvolveState(sim);
        n := n + 1;
      }
    }

    /** `SESequence.run`: numReps repetitions, row r sampled in repetition
        r at its echo step. Rows whose repetition has no echo step keep the
        array's initial contents, returned as `blank`; the voxel ends
        numReps repetitions on. */
    method Run(voxel: Voxel, sim: Sim) returns (signal: array<Vec3>, ghost blank: seq<Vec3>)
      modifies voxel
      ensures fresh(signal) && signal.Length == numReps && |blank| == numReps
      ensures forall r :: 0 <= r < numReps ==>
                signal[r] == Row(voxel.tissue, sim, r, old(voxel.m), blank[r])
      ensures voxel.m == StartOfRep(voxel.tissue, sim, numReps, old(voxel.m))
    {
      ghost var t, m := voxel.tissue, voxel.m;
      signal := new Vec3[numReps];
      blank := signal[..];
      var r := 0;
      while r < numReps
        invariant 0 <= r <= numReps
        invariant voxel.tissue == t
        invariant voxel.m == StartOfRep(t, sim, r, m)
        invariant forall j {:trigger signal[j]} :: 0 <= j < r ==> signal[j] == Row(t, sim, j, m, blank[j])
        invariant forall j {:trigger signal[j]} :: r <= j < numReps ==> signal[j] == blank[j]
      {
        RunRepetition(voxel, sim, signal, r);
        r := r + 1;
      }
    }
  }

  /** A sequence whose voxel starts at rest along z, (0, 0, k), samples first
      a state with Mz = 0 and transverse length |k|. */
  lemma FidStartsTipped(t: Tissue, sim: Sim, n: nat, k: real)
    requires n > 0 && sim.Valid()
    ensures Trace(t, sim, n, Perturb(RightAngle, sim, Vec3(0.0, 0.0, k)))[0].z == 0.0
    ensures TransverseSq(Trace(t, sim, n, Perturb(RightAngle, sim, Vec3(0.0, 0.0, k)))[0]) == k * k
  {
    RightAnglePulseTips(sim, k);
  }

  /** Row n + 1 of a trace is one step on from row n. */
  lemma TraceSteps(t: Tissue, sim: Sim, n: nat, m: Vec3, k: nat)
    requires k + 1 < n
    ensures Trace(t, sim, n, m)[k + 1] == Evolve(t, sim, Trace(t, sim, n, m)[k])
  {
  }

  /** Along a free-induction trace, a quantity that every step scales by q
      is scaled by q^j at row j. */
  lemma TraceScaled(t: Tissue, sim: Sim, f: Vec3 -> real, q: real, n: nat, m: Vec3, j: nat)
    requires forall v :: f(Evolve(t, sim, v)) == q * f(v)
    requires j < n
    ensures f(Trace(t, sim, n, m)[j]) == Pow(q, j) * f(m)
  {
    EvolveNScaled(t, sim, f, q, j, m, f(m));
  }

  /** The FID decay envelope: along a trace, row j has e2^(2j) times the
      transverse length^2 of row 0 (k^2 from rest (0, 0, k), by
      FidStartsTipped). */
  lemma TraceTransverse(t: Tissue, sim: Sim, n: nat, post: Vec3, j: nat)
    requires sim.precession.OnUnitCircle() && j < n
    ensures TransverseSq(Trace(t, sim, n, post)[j]) == Pow(t.e2 * t.e2, j) * TransverseSq(post)
  {
    EvolveNTransverse(t, sim, j, post);
    RowValue(TransverseSq, Trace(t, sim, n, post), j, EvolveN(t, sim, j, post), Pow(t.e2 * t.e2, j) * TransverseSq(post));
  }

  /** A quantity of a row is the quantity of the state the row holds. */
  lemma RowValue(f: Vec3 -> real, rows: seq<Vec3>, j: nat, e: Vec3, value: real)
    requires j < |rows| && rows[j] == e && f(e) == value
    ensures f(rows[j]) == value
  {
  }

  /** The FID recovery: from rest (0, 0, k), row j has Mz - m0 = -m0 * e1^j,
      Mz climbing from 0 toward m0. */
  lemma FidLongitudinalRecovery(t: Tissue, sim: Sim, n: nat, k: real, j: nat)
    requires sim.Valid() && j < n
    ensures Trace(t, sim, n, Perturb(RightAngle, sim, Vec3(0.0, 0.0, k)))[j].z - t.m0
         == Pow(t.e1, j) * (0.0 - t.m0)
  {
    var post := Perturb(RightAngle, sim, Vec3(0.0, 0.0, k));
    RightAnglePulseTips(sim, k);
    TraceLongitudinal(t, sim, n, post, j);
  }

  /** Along a trace, row j has e1^j times the distance Mz - m0 of row 0. */
  lemma TraceLongitudinal(t: Tissue, sim: Sim, n: nat, post: Vec3, j: nat)
    requires j < n
    ensures Trace(t, sim, n, post)[j].z - t.m0 == Pow(t.e1, j) * (post.z - t.m0)
  {
    EvolveNLongitudinal(t, sim, j, post);
  }

  /** Every row of a spin-echo run is written when the echo time is reached
      within the first repetition's length and no earlier than the counter
      of the last repetition's first step, num_reps * (num_reps - 1). */
  lemma EveryRowWritten(s: SeSequence)
    requires s.numReps * (s.numReps - 1) <= s.teTicks < s.stepsPerRep
    ensures forall r: nat :: r < s.numReps ==> s.EchoOffset(r) == Some(s.teTicks - s.numReps * r)
  {
    forall r: nat | r < s.numReps
      ensures s.EchoOffset(r) == Some(s.teTicks - s.numReps * r)
    {
      MulMonotone(s.numReps, r, s.numReps - 1);
    }
  }

  lemma MulMonotone(a: nat, b: nat, c: nat)
    requires b <= c
    ensures a * b <= a * c
  {
  }

  /** The demonstration configuration tr = 2e-5 s, te = 1e-5 s, ten
      repetitions, at DT = 1e-9 s: every row is written, row r at step
      10000 - 10r of its repetition, not at the echo time itself. */
  lemma DemoEveryRowWritten()
    ensures forall r: nat :: r < 10 ==> SeSequence(10, 20000, 10000).EchoOffset(r) == Some(10000 - 10 * r)
  {
    EveryRowWritten(SeSequence(10, 20000, 10000));
  }

  /** A repetition whose first step counter is already past the echo time
      never writes its row: the counter only grows within a repetition. */
  lemma LateRepetitionNeverSampled(s: SeSequence, r: nat)
    requires s.StepIndex(r, 0) > s.teTicks
    ensures s.EchoOffset(r) == None
  {
  }
}
