/**
  Value-level specification of `PhotonicMatrixMultiplier`: the forward
  passes through the MZI mesh, the resonator amplitude weights, one
  pigeonhole SCL update and the training epochs. The class in
  photonic_core.dfy is proved against these functions, and the lemmas
  here state what the source promises about them.
*/
module MeshSpec {
  import opened Wrappers
  import opened Numerics
  import opened MziIndices
  import opened SclRandom

  // =====================================================================
  // The MZI mesh

  /**
    One MZI coupler on channels i and j. Both outputs are computed from the
    channel values before the step; every other channel is left alone.
  */
  function Coupler(a: seq<Complex>, i: nat, j: nat, c: real, s: Complex): (r: seq<Complex>)
    requires i < |a| && j < |a| && i != j
    ensures |r| == |a|
    ensures forall t :: 0 <= t < |a| && t != i && t != j ==> r[t] == a[t]
  {
    a[i := Sub(Scale(c, a[i]), Mul(s, a[j]))][j := Add(Mul(Conj(s), a[i]), Scale(c, a[j]))]
  }

  /** Channels i and j multiplied by the resonator weight w in front of the coupler. */
  function Attenuate(a: seq<Complex>, i: nat, j: nat, w: real): (r: seq<Complex>)
    requires i < |a| && j < |a|
    ensures |r| == |a|
    ensures forall t :: 0 <= t < |a| && t != i && t != j ==> r[t] == a[t]
  {
    a[i := Scale(w, a[i])][j := Scale(w, a[j])]
  }

  /** `cos(theta[k])`, the bar coefficient of element k. */
  function CosCoeff(ph: Physics, theta: seq<real>, k: nat): real
    requires k < |theta|
  {
    ph.cos(theta[k])
  }

  /** `sin(theta[k]) · e^(i·phi[k])`, the cross coefficient of element k. */
  function SinCoeff(ph: Physics, theta: seq<real>, phi: seq<real>, k: nat): Complex
    requires k < |theta| && k < |phi|
  {
    Scale(ph.sin(theta[k]), Cis(ph, phi[k]))
  }

  /** Each of the first n pairs has i < j and addresses a channel of a vector of length len. */
  predicate Fits(pairs: seq<(nat, nat)>, n: nat, len: nat)
    requires n <= |pairs|
  {
    forall k :: 0 <= k < n ==> pairs[k].0 < pairs[k].1 < len
  }

  /** The state after the first n elements of the baseline pass (`multiply`). */
  function MeshPass(ph: Physics, pairs: seq<(nat, nat)>, theta: seq<real>, phi: seq<real>,
                    v: seq<Complex>, n: nat): (r: seq<Complex>)
    requires n <= |pairs| && n <= |theta| && n <= |phi| && Fits(pairs, n, |v|)
    ensures |r| == |v|
  {
    if n == 0 then v
    else
      var k := n - 1;
      Coupler(MeshPass(ph, pairs, theta, phi, v, k), pairs[k].0, pairs[k].1,
              CosCoeff(ph, theta, k), SinCoeff(ph, theta, phi, k))
  }

  /** One more element of the baseline pass applies its coupler to the state so far. */
  lemma {:induction false} MeshPassStep(ph: Physics, pairs: seq<(nat, nat)>, theta: seq<real>, phi: seq<real>,
                     v: seq<Complex>, k: nat, k2: nat)
    requires k < |pairs| && k < |theta| && k < |phi| && Fits(pairs, k, |v|) && k2 == k + 1
    requires pairs[k].0 < pairs[k].1 < |v|
    ensures Fits(pairs, k2, |v|)
    ensures MeshPass(ph, pairs, theta, phi, v, k2) ==
            Coupler(MeshPass(ph, pairs, theta, phi, v, k), pairs[k].0, pairs[k].1,
                    CosCoeff(ph, theta, k), SinCoeff(ph, theta, phi, k))
  {
  }

  /** The state after the first n elements of the resonator-weighted pass. */
  function WeightedPass(ph: Physics, pairs: seq<(nat, nat)>, theta: seq<real>, phi: seq<real>,
                        w: seq<real>, v: seq<Complex>, n: nat): (r: seq<Complex>)
    requires n <= |pairs| && n <= |theta| && n <= |phi| && n <= |w| && Fits(pairs, n, |v|)
    ensures |r| == |v|
  {
    if n == 0 then v
    else
      var k := n - 1;
      var (i, j) := pairs[k];
      Coupler(Attenuate(WeightedPass(ph, pairs, theta, phi, w, v, k), i, j, w[k]), i, j,
              CosCoeff(ph, theta, k), SinCoeff(ph, theta, phi, k))
  }

  /** One more element of the weighted pass attenuates both channels, then applies the coupler. */
  lemma {:induction false} WeightedPassStep(ph: Physics, pairs: seq<(nat, nat)>, theta: seq<real>, phi: seq<real>,
                         w: seq<real>, v: seq<Complex>, k: nat, k2: nat)
    requires k < |pairs| && k < |theta| && k < |phi| && k < |w| && Fits(pairs, k, |v|) && k2 == k + 1
    requires pairs[k].0 < pairs[k].1 < |v|
    ensures Fits(pairs, k2, |v|)
    ensures WeightedPass(ph, pairs, theta, phi, w, v, k2) ==
            Coupler(Attenuate(WeightedPass(ph, pairs, theta, phi, w, v, k), pairs[k].0, pairs[k].1, w[k]),
                    pairs[k].0, pairs[k].1, CosCoeff(ph, theta, k), SinCoeff(ph, theta, phi, k))
  {
  }

  /** The parts of the multiplier the passes and updates read but never change. */
  datatype MeshConfig = MeshConfig(physics: Physics, size: nat, q: real, probe: real, phi: seq<real>)

  /** The parts training changes: phases, resonance wavelengths and the LCG seed. */
  datatype MeshState = MeshState(theta: seq<real>, res: seq<real>, seed: nat)

  /** Every per-element array has one entry per MZI, and the Q-factor is nonzero. */
  predicate Sized(cfg: MeshConfig, st: MeshState)
  {
    var n := |Pairs(cfg.size)|;
    |cfg.phi| == n && |st.theta| == n && |st.res| == n && cfg.q != 0.0
  }

  /** `multiply(vector)`: the pass, or an IndexError when a pair addresses a missing channel. */
  function Multiplied(cfg: MeshConfig, theta: seq<real>, v: seq<Complex>): (r: Result<seq<Complex>>)
    requires |theta| == |Pairs(cfg.size)| && |cfg.phi| == |Pairs(cfg.size)|
    ensures r.Failure? ==> r.error == IndexError
    ensures r.Success? ==> |r.value| == |v|
  {
    var pairs := Pairs(cfg.size);
    if Fits(pairs, |pairs|, |v|) then Success(MeshPass(cfg.physics, pairs, theta, cfg.phi, v, |pairs|))
    else Failure(IndexError)
  }

  /** `multiply_resonator_weighted(vector)` with the weights of the current resonances. */
  function WeightedMultiplied(cfg: MeshConfig, st: MeshState, v: seq<Complex>): (r: Result<seq<Complex>>)
    requires Sized(cfg, st)
    ensures r.Failure? ==> r.error == IndexError
    ensures r.Success? ==> |r.value| == |v|
  {
    var pairs := Pairs(cfg.size);
    var w := ResonatorWeights(cfg, st.res);
    if Fits(pairs, |pairs|, |v|) then Success(WeightedPass(cfg.physics, pairs, st.theta, cfg.phi, w, v, |pairs|))
    else Failure(IndexError)
  }

  // ---------------------------------------------------------------------
  // Properties of the passes

  /** The table of an n-waveguide mesh fits a vector exactly when the vector has n channels or more. */
  lemma {:induction false} PairsFit(n: nat, len: nat)
    ensures Fits(Pairs(n), |Pairs(n)|, len) <==> (|Pairs(n)| == 0 || n <= len)
  {
    forall k | 0 <= k < |Pairs(n)| ensures Pairs(n)[k].0 < Pairs(n)[k].1 < n {
      PairsInRange(n, k);
    }
    if |Pairs(n)| > 0 && len < n {
      PairsLength(n);
      assert n >= 2;
      PairAt(n - 2, n - 1, n);
    }
  }

  /** Both forward passes fail, with an IndexError, exactly when the vector is shorter than the mesh. */
  lemma {:induction false} MultiplyFailsIff(cfg: MeshConfig, st: MeshState, v: seq<Complex>)
    requires Sized(cfg, st)
    ensures Multiplied(cfg, st.theta, v).Failure? <==> (NumMzi(cfg.size) > 0 && |v| < cfg.size)
    ensures WeightedMultiplied(cfg, st, v).Failure? <==> (NumMzi(cfg.size) > 0 && |v| < cfg.size)
    ensures Multiplied(cfg, st.theta, v).Failure? ==> Multiplied(cfg, st.theta, v).error == IndexError
  {
    PairsFit(cfg.size, |v|);
    PairsLength(cfg.size);
  }

  /** With every weight equal to 1 the weighted pass is the baseline pass. */
  lemma {:induction false} UnitWeightsPass(ph: Physics, pairs: seq<(nat, nat)>, theta: seq<real>,
                                           phi: seq<real>, w: seq<real>, v: seq<Complex>, n: nat)
    requires n <= |pairs| && n <= |theta| && n <= |phi| && n <= |w| && Fits(pairs, n, |v|)
    requires forall k :: 0 <= k < n ==> w[k] == 1.0
    ensures WeightedPass(ph, pairs, theta, phi, w, v, n) == MeshPass(ph, pairs, theta, phi, v, n)
  {
    if n > 0 {
      UnitWeightsPass(ph, pairs, theta, phi, w, v, n - 1);
      var a := MeshPass(ph, pairs, theta, phi, v, n - 1);
      var (i, j) := pairs[n - 1];
      assert Attenuate(a, i, j, 1.0) == a;
    }
  }

  /** At zero phase (cos 0 = 1, sin 0 = 0) every coupler is the identity, so the pass is too. */
  lemma {:induction false} ZeroPhasePass(ph: Physics, pairs: seq<(nat, nat)>, theta: seq<real>,
                                         phi: seq<real>, v: seq<Complex>, n: nat)
    requires n <= |pairs| && n <= |theta| && n <= |phi| && Fits(pairs, n, |v|)
    requires ph.cos(0.0) == 1.0 && ph.sin(0.0) == 0.0
    requires forall k :: 0 <= k < n ==> theta[k] == 0.0
    ensures MeshPass(ph, pairs, theta, phi, v, n) == v
  {
    if n > 0 {
      ZeroPhasePass(ph, pairs, theta, phi, v, n - 1);
      var (i, j) := pairs[n - 1];
      assert CosCoeff(ph, theta, n - 1) == 1.0;
      assert SinCoeff(ph, theta, phi, n - 1) == Zero;
      CouplerIdentity(v, i, j);
    }
  }

  /** The coupler with c = 1 and s = 0 passes both channels through. */
  lemma {:induction false} CouplerIdentity(a: seq<Complex>, i: nat, j: nat)
    requires i < |a| && j < |a| && i != j
    ensures Coupler(a, i, j, 1.0, Zero) == a
  {
    assert Sub(Scale(1.0, a[i]), Mul(Zero, a[j])) == a[i];
    assert Add(Mul(Conj(Zero), a[i]), Scale(1.0, a[j])) == a[j];
  }

  // =====================================================================
  // Resonator amplitude weights

  /** The binomial moment order of `_update_resonator_weights`, also `amplitude_weight`'s default. */
  const MomentOrder: nat := 6

  /** `math.comb(m, k)`, by Pascal's rule. */
  function Binom(m: nat, k: nat): nat
  {
    if k == 0 then 1 else if m == 0 then 0 else Binom(m - 1, k - 1) + Binom(m - 1, k)
  }

  function Pow2(m: nat): (r: nat)
    ensures r >= 1
  {
    if m == 0 then 1 else 2 * Pow2(m - 1)
  }

  /** `comb(M, k) / 2**M`, the binomial kernel weight of moment k. */
  function BinomWeight(m: nat, k: nat): (r: real)
    ensures r >= 0.0
  {
    Binom(m, k) as real / Pow2(m) as real
  }

  /** Probe wavelength of moment k: probe + (k − M/2) · probe / (2Q). */
  function MomentWavelength(probe: real, q: real, m: nat, k: nat): real
    requires q != 0.0
  {
    probe + (k as real - m as real / 2.0) * (probe / (2.0 * q))
  }

  /** `sqrt(T_k)`: amplitude transmission of moment k, with HWHM = 1 / (2Q). */
  function MomentAmplitude(ph: Physics, q: real, probe: real, res: real, m: nat, k: nat): real
    requires q != 0.0
  {
    ph.sqrt(ph.lorentz(1.0 / (2.0 * q), MomentWavelength(probe, q, m, k), res))
  }

  /** The M + 1 moment amplitudes of one resonator. */
  function Amplitudes(ph: Physics, q: real, probe: real, res: real, m: nat): (a: seq<real>)
    requires q != 0.0
    ensures |a| == m + 1
  {
    seq(m + 1, k requires 0 <= k <= m => MomentAmplitude(ph, q, probe, res, m, k))
  }

  /** The first n terms of the binomial moment average Σ C(m, k) / 2^m · amps[k]. */
  function KernelSum(m: nat, amps: seq<real>, n: nat): real
    requires n <= |amps|
  {
    if n == 0 then 0.0 else KernelSum(m, amps, n - 1) + BinomWeight(m, n - 1) * amps[n - 1]
  }

  /** The amplitude weight of one resonator: the M + 1 term moment average clipped to [0, 1]. */
  function Weight(ph: Physics, q: real, probe: real, res: real, m: nat): (w: real)
    requires q != 0.0
    ensures 0.0 <= w <= 1.0
  {
    Clip(KernelSum(m, Amplitudes(ph, q, probe, res, m), m + 1), 0.0, 1.0)
  }

  /** `resonator_weights`: one clipped weight of order 6 per resonance wavelength. */
  function ResonatorWeights(cfg: MeshConfig, res: seq<real>): (w: seq<real>)
    requires cfg.q != 0.0
    ensures |w| == |res|
    ensures forall k :: 0 <= k < |w| ==> 0.0 <= w[k] <= 1.0
  {
    seq(|res|, k requires 0 <= k < |res| => Weight(cfg.physics, cfg.q, cfg.probe, res[k], MomentOrder))
  }

  /** The weights depend on the kernels, the Q-factor and the probe only, not on the phases φ. */
  lemma {:induction false} ResonatorWeightsIgnorePhi(a: MeshConfig, b: MeshConfig, res: seq<real>)
    requires a.q != 0.0
    requires a.physics == b.physics && a.q == b.q && a.probe == b.probe
    ensures ResonatorWeights(a, res) == ResonatorWeights(b, res)
  {
  }

  /** Σ_{k<n} C(m, k). */
  function BinomPrefix(m: nat, n: nat): nat
  {
    if n == 0 then 0 else BinomPrefix(m, n - 1) + Binom(m, n - 1)
  }

  lemma {:induction false} BinomBeyond(m: nat, k: nat)
    requires k > m
    ensures Binom(m, k) == 0
  {
    if m > 0 {
      BinomBeyond(m - 1, k - 1);
      BinomBeyond(m - 1, k);
    }
  }

  /** Pascal's rule summed: the prefix sums of row m + 1 are two prefix sums of row m. */
  lemma {:induction false} BinomPrefixPascal(m: nat, n: nat)
    ensures BinomPrefix(m + 1, n + 1) == BinomPrefix(m, n + 1) + BinomPrefix(m, n)
  {
    if n > 0 {
      BinomPrefixPascal(m, n - 1);
      assert Binom(m + 1, n) == Binom(m, n - 1) + Binom(m, n);
    }
  }

  /** The binomial kernel is normalised: Σ_{k=0}^{m} C(m, k) = 2^m. */
  lemma {:induction false} BinomRowSum(m: nat)
    ensures BinomPrefix(m, m + 1) == Pow2(m)
  {
    if m > 0 {
      BinomRowSum(m - 1);
      BinomPrefixPascal(m - 1, m);
      BinomBeyond(m - 1, m);
      assert BinomPrefix(m - 1, m + 1) == BinomPrefix(m - 1, m);
    }
  }

  /** With amplitudes in [0, 1] the partial moment average stays within [0, Σ C(m,k) / 2^m]. */
  lemma {:induction false} KernelSumBounds(m: nat, amps: seq<real>, n: nat)
    requires n <= |amps|
    requires forall k :: 0 <= k < |amps| ==> 0.0 <= amps[k] <= 1.0
    ensures 0.0 <= KernelSum(m, amps, n) <= BinomPrefix(m, n) as real / Pow2(m) as real
  {
    if n > 0 {
      KernelSumBounds(m, amps, n - 1);
      var prev, c := BinomPrefix(m, n - 1) as real, Binom(m, n - 1) as real;
      assert BinomPrefix(m, n) as real == prev + c;
      WeightedStepBound(KernelSum(m, amps, n - 1), prev, c, Pow2(m) as real, amps[n - 1]);
    }
  }

  /**
    The clip in the weight is inactive for a physical kernel: when every
    moment amplitude lies in [0, 1], the normalised binomial average
    already lies in [0, 1].
  */
  lemma {:induction false} WeightUnclipped(ph: Physics, q: real, probe: real, res: real, m: nat)
    requires q != 0.0
    requires forall k :: 0 <= k <= m ==> 0.0 <= MomentAmplitude(ph, q, probe, res, m, k) <= 1.0
    ensures Weight(ph, q, probe, res, m) == KernelSum(m, Amplitudes(ph, q, probe, res, m), m + 1)
  {
    var amps := Amplitudes(ph, q, probe, res, m);
    AmplitudesInUnit(ph, q, probe, res, m);
    KernelSumInUnit(m, amps);
  }

  lemma {:induction false} AmplitudesInUnit(ph: Physics, q: real, probe: real, res: real, m: nat)
    requires q != 0.0
    requires forall k :: 0 <= k <= m ==> 0.0 <= MomentAmplitude(ph, q, probe, res, m, k) <= 1.0
    ensures var amps := Amplitudes(ph, q, probe, res, m); forall k :: 0 <= k < |amps| ==> 0.0 <= amps[k] <= 1.0
  {
    var amps := Amplitudes(ph, q, probe, res, m);
    forall k | 0 <= k < |amps| ensures 0.0 <= amps[k] <= 1.0 {
      assert amps[k] == MomentAmplitude(ph, q, probe, res, m, k);
    }
  }

  /** The full moment average of amplitudes in [0, 1] lies in [0, 1]. */
  lemma {:induction false} KernelSumInUnit(m: nat, amps: seq<real>)
    requires |amps| == m + 1
    requires forall k :: 0 <= k < |amps| ==> 0.0 <= amps[k] <= 1.0
    ensures 0.0 <= KernelSum(m, amps, m + 1) <= 1.0
  {
    KernelSumBounds(m, amps, m + 1);
    BinomRowSum(m);
    DivSelf(Pow2(m) as real);
  }

  lemma {:induction false} DivSelf(p: real)
    requires p > 0.0
    ensures p / p == 1.0
  {
  }

  // =====================================================================
  // One pigeonhole SCL update

  /**
    `target - predicted` under numpy broadcasting: equal lengths, or one
    side of length 1; any other pair of shapes is a ValueError.
  */
  function Residual(target: seq<Complex>, predicted: seq<Complex>): (r: Option<seq<Complex>>)
    ensures r.Some? <==> (|target| == |predicted| || |target| == 1 || |predicted| == 1)
    ensures r.Some? ==> |r.value| == (if |target| == 1 then |predicted| else |target|)
  {
    if |target| == |predicted| then
      Some(seq(|target|, k requires 0 <= k < |target| => Sub(target[k], predicted[k])))
    else if |target| == 1 then
      Some(seq(|predicted|, k requires 0 <= k < |predicted| => Sub(target[0], predicted[k])))
    else if |predicted| == 1 then
      Some(seq(|target|, k requires 0 <= k < |target| => Sub(target[k], predicted[0])))
    else None
  }

  /** `sqrt(mean(|r|²))`; the mean of an empty residual is numpy's nan. */
  function Rms(ph: Physics, r: seq<Complex>): (rms: real)
    ensures r == [] ==> rms == ph.nan
  {
    if |r| == 0 then ph.nan else ph.sqrt(SumNormSq(r) / |r| as real)
  }

  /** `np.linalg.norm(r)`. */
  function Norm(ph: Physics, r: seq<Complex>): real
  {
    ph.sqrt(SumNormSq(r))
  }

  /** The step of one element: lr · δ · ‖r‖. */
  function Kick(lr: real, delta: real, norm: real): (k: real)
    ensures lr == 0.0 || delta == 0.0 || norm == 0.0 ==> k == 0.0
    ensures lr > 0.0 && norm > 0.0 ==> (k > 0.0 <==> delta > 0.0)
  {
    lr * delta * norm
  }

  /** `lr · deltas[bin_ids] · ‖r‖`: element k takes the draw of its bin k mod B. */
  function Steps(lr: real, deltas: seq<real>, norm: real, n: nat): (step: seq<real>)
    requires |deltas| >= 1
    ensures |step| == n
  {
    seq(n, k requires 0 <= k < n => Kick(lr, deltas[k % |deltas|], norm))
  }

  /** `theta += step; theta %= 2π`. */
  function Rephased(theta: seq<real>, step: seq<real>): (r: seq<real>)
    requires |step| == |theta|
    ensures |r| == |theta|
    ensures forall k :: 0 <= k < |r| ==> 0.0 <= r[k] < 2.0 * Pi
  {
    seq(|theta|, k requires 0 <= k < |theta| => FloorMod(theta[k] + step[k], 2.0 * Pi))
  }

  /** `_res_wavelengths += step * 0.01`. */
  function Retuned(res: seq<real>, step: seq<real>): (r: seq<real>)
    requires |step| == |res|
    ensures |r| == |res|
  {
    seq(|res|, k requires 0 <= k < |res| => res[k] + step[k] * 0.01)
  }

  /**
    `scl_update(target, predicted, lr)`: the new state and the RMS
    residual, or the ValueError of an impossible broadcast.
  */
  function SclStep(cfg: MeshConfig, st: MeshState, target: seq<Complex>, predicted: seq<Complex>,
                   lr: real): (r: Result<(MeshState, real)>)
    requires Sized(cfg, st)
    ensures r.Failure? <==> Residual(target, predicted).None?
    ensures r.Failure? ==> r.error == ValueError
    ensures r.Success? ==> Sized(cfg, r.value.0)
    ensures r.Success? ==> r.value.0.seed == Advance(st.seed, SclBins(|st.theta|))
  {
    match Residual(target, predicted)
    case None => Failure(ValueError)
    case Some(res) =>
      var n := |Pairs(cfg.size)|;
      var b := SclBins(n);
      var step := Steps(lr, Draws(st.seed, b), Norm(cfg.physics, res), n);
      Success((MeshState(Rephased(st.theta, step), Retuned(st.res, step), Advance(st.seed, b)),
               Rms(cfg.physics, res)))
  }

  /**
    What one SCL update does to element k: it takes the draw δ of its bin
    k mod B, where B = max(1, ⌈√num_mzi⌉); its phase moves by
    lr · δ · ‖r‖ and lands in [0, 2π); its resonance moves by a hundredth
    of the same step; the update returns the RMS of the residual.
  */
  lemma {:induction false} SclStepEffect(cfg: MeshConfig, st: MeshState, target: seq<Complex>, predicted: seq<Complex>,
                      lr: real, k: nat)
    requires Sized(cfg, st) && k < |st.theta| && Residual(target, predicted).Some?
    ensures SclStep(cfg, st, target, predicted, lr).Success?
    ensures var (st2, rms) := SclStep(cfg, st, target, predicted, lr).value;
            var res := Residual(target, predicted).value;
            var b := SclBins(|st.theta|);
            var delta := Draws(st.seed, b)[k % b];
            && -0.5 <= delta < 0.5
            && 0.0 <= st2.theta[k] < 2.0 * Pi
            && st2.theta[k] == FloorMod(st.theta[k] + Kick(lr, delta, Norm(cfg.physics, res)), 2.0 * Pi)
            && st2.res[k] == st.res[k] + Kick(lr, delta, Norm(cfg.physics, res)) * 0.01
            && rms == Rms(cfg.physics, res)
  {
    var res := Residual(target, predicted).value;
    var n := |Pairs(cfg.size)|;
    var b := SclBins(n);
    var deltas := Draws(st.seed, b);
    var norm := Norm(cfg.physics, res);
    var step := Steps(lr, deltas, norm, n);
    assert SclStep(cfg, st, target, predicted, lr)
           == Success((MeshState(Rephased(st.theta, step), Retuned(st.res, step), Advance(st.seed, b)),
                       Rms(cfg.physics, res)));
    assert step[k] == Kick(lr, deltas[k % b], norm);
    DrawsAt(st.seed, b, k % b);
  }

  // =====================================================================
  // Training

  /** A computation over the mesh state that is still going, or halted by an exception. */
  datatype Run<T> = Going(st: MeshState, acc: T) | Halted(st: MeshState, err: Error)

  /** The run is still going, in state `s` with accumulated value `a` (a field-wise `r == Going(s, a)`). */
  predicate GoingWith<T(==)>(r: Run<T>, s: MeshState, a: T)
  {
    r.Going? && r.st == s && r.acc == a
  }

  /**
    A run reported as Python sees it: the object is left in the run's final
    state, and the call returns the accumulated value `a` or raises the
    run's error.
  */
  predicate Reports<T(==)>(run: Run<T>, s: MeshState, r: Result<T>, a: T)
  {
    && run.st == s
    && (r.Success? <==> run.Going?)
    && (run.Going? ==> r == Success(run.acc) && a == run.acc)
    && (run.Halted? ==> r == Failure(run.err))
  }

  /** One sample: the weighted forward pass, then `scl_update` against its target. */
  function SampleStep(cfg: MeshConfig, st: MeshState, vectors: seq<seq<Complex>>,
                      targets: seq<seq<Complex>>, idx: nat, lr: real): (r: Result<(MeshState, real)>)
    requires Sized(cfg, st) && idx < |vectors|
    ensures r.Success? ==> Sized(cfg, r.value.0)
    ensures r.Success? ==> r.value.0.seed == Advance(st.seed, SclBins(|st.theta|))
  {
    match WeightedMultiplied(cfg, st, vectors[idx])
    case Failure(e) => Failure(e)
    case Success(pred) =>
      if idx >= |targets| then Failure(IndexError) else SclStep(cfg, st, targets[idx], pred, lr)
  }

  /** Every index of the order names a training vector. */
  predicate InRange(order: seq<nat>, n: nat)
  {
    forall t :: 0 <= t < |order| ==> order[t] < n
  }

  /** `np.random.shuffle(idx_arr)` of `arange(n)`: every sample index exactly once. */
  predicate IsPermutation(order: seq<nat>, n: nat)
  {
    && |order| == n
    && (forall t :: 0 <= t < n ==> order[t] < n)
    && (forall a, b :: 0 <= a < b < n ==> order[a] != order[b])
  }

  /** A shuffled order visits every sample index, and only those. */
  lemma {:induction false} PermutationCovers(order: seq<nat>, n: nat, idx: nat)
    requires IsPermutation(order, n)
    ensures idx in order <==> idx < n
  {
    var image := set t | 0 <= t < n :: order[t];
    DistinctImageSize(order, n);
    SubsetSameSize(image, Indices(n));
    if idx < n {
      assert idx in image;
    }
  }

  /** {0, …, n−1}. */
  function Indices(n: nat): (s: set<nat>)
    ensures |s| == n
    ensures forall x: nat :: x in s <==> x < n
  {
    if n == 0 then {}
    else
      var s := Indices(n - 1);
      assert n - 1 !in s;
      s + {n - 1}
  }

  /** The set of n distinct values has n elements. */
  lemma {:induction false} DistinctImageSize(order: seq<nat>, n: nat)
    requires |order| == n && forall a, b :: 0 <= a < b < n ==> order[a] != order[b]
    ensures |set t | 0 <= t < n :: order[t]| == n
  {
    if n > 0 {
      var u := order[..n - 1];
      DistinctImageSize(u, n - 1);
      var s0 := set t | 0 <= t < n - 1 :: u[t];
      assert (set t | 0 <= t < n :: order[t]) == s0 + {order[n - 1]};
      assert order[n - 1] !in s0;
    }
  }

  /** A subset is no larger than its superset. */
  lemma {:induction false} SubsetSize<T>(a: set<T>, b: set<T>)
    requires a <= b
    ensures |a| <= |b|
    decreases |b|
  {
    if b != {} {
      var x :| x in b;
      SubsetSize(a - {x}, b - {x});
    }
  }

  /** A subset as large as its superset is the whole superset. */
  lemma {:induction false} SubsetSameSize<T>(a: set<T>, b: set<T>)
    requires a <= b && |a| == |b|
    ensures a == b
  {
    if a != b {
      var x :| x in b && x !in a;
      SubsetSize(a, b - {x});
      assert false;
    }
  }

  /** A shuffled order only names training vectors. */
  lemma {:induction false} PermutationInRange(order: seq<nat>, n: nat)
    requires IsPermutation(order, n)
    ensures InRange(order, n)
  {
  }

  /** Every prefix of an order in range is in range. */
  lemma {:induction false} InRangePrefix(order: seq<nat>, n: nat, k: nat)
    requires InRange(order, n) && k <= |order|
    ensures InRange(order[..k], n)
  {
  }

  /** One sample on a running epoch: a halted epoch stays halted. */
  function EpochNext(cfg: MeshConfig, prev: Run<real>, vectors: seq<seq<Complex>>,
                     targets: seq<seq<Complex>>, idx: nat, lr: real): (r: Run<real>)
    requires Sized(cfg, prev.st) && idx < |vectors|
    ensures Sized(cfg, r.st)
  {
    match prev
    case Halted(s, e) => Halted(s, e)
    case Going(s, acc) =>
      var step := SampleStep(cfg, s, vectors, targets, idx, lr);
      if step.Failure? then Halted(s, step.error) else Going(step.value.0, acc + step.value.1)
  }

  /** The samples of one epoch, in the shuffled order, with the running RMS sum. */
  function Epoch(cfg: MeshConfig, st: MeshState, vectors: seq<seq<Complex>>, targets: seq<seq<Complex>>,
                 order: seq<nat>, lr: real): (r: Run<real>)
    requires Sized(cfg, st) && InRange(order, |vectors|)
    ensures Sized(cfg, r.st)
    decreases |order|
  {
    if order == [] then Going(st, 0.0)
    else
      var last := |order| - 1;
      EpochNext(cfg, Epoch(cfg, st, vectors, targets, order[..last], lr), vectors, targets, order[last], lr)
  }

  /** One epoch on a running training: the mean RMS is appended, or division by zero halts it. */
  function TrainNext(cfg: MeshConfig, prev: Run<seq<real>>, vectors: seq<seq<Complex>>,
                     targets: seq<seq<Complex>>, order: seq<nat>, lr: real): (r: Run<seq<real>>)
    requires Sized(cfg, prev.st) && InRange(order, |vectors|)
    ensures Sized(cfg, r.st)
  {
    match prev
    case Halted(s, e) => Halted(s, e)
    case Going(s, losses) =>
      match Epoch(cfg, s, vectors, targets, order, lr)
      case Halted(s2, e) => Halted(s2, e)
      case Going(s2, sum) =>
        if |vectors| == 0 then Halted(s2, ZeroDivisionError)
        else Going(s2, losses + [sum / |vectors| as real])
  }

  /** `train_scl`: the epochs in turn, each appending its mean RMS to the loss history. */
  function Train(cfg: MeshConfig, st: MeshState, vectors: seq<seq<Complex>>, targets: seq<seq<Complex>>,
                 orders: seq<seq<nat>>, lr: real): (r: Run<seq<real>>)
    requires Sized(cfg, st) && forall e :: 0 <= e < |orders| ==> InRange(orders[e], |vectors|)
    ensures Sized(cfg, r.st)
    decreases |orders|
  {
    if orders == [] then Going(st, [])
    else
      var last := |orders| - 1;
      TrainNext(cfg, Train(cfg, st, vectors, targets, orders[..last], lr), vectors, targets, orders[last], lr)
  }

  // ---------------------------------------------------------------------
  // The steps of the training loops

  /** The epoch over the first t + 1 samples is one more sample on the epoch over the first t. */
  lemma {:induction false} EpochUnfold(cfg: MeshConfig, st: MeshState, vectors: seq<seq<Complex>>, targets: seq<seq<Complex>>,
                    order: seq<nat>, lr: real, t: nat)
    requires Sized(cfg, st) && InRange(order, |vectors|) && t < |order|
    ensures InRange(order[..t], |vectors|) && InRange(order[..t + 1], |vectors|)
    ensures Epoch(cfg, st, vectors, targets, order[..t + 1], lr)
            == EpochNext(cfg, Epoch(cfg, st, vectors, targets, order[..t], lr), vectors, targets, order[t], lr)
  {
    var prefix := order[..t + 1];
    assert prefix[..t] == order[..t] && prefix[t] == order[t];
  }

  /** The run over the first e + 1 epochs is one more epoch on the run over the first e. */
  lemma {:induction false} TrainUnfold(cfg: MeshConfig, st: MeshState, vectors: seq<seq<Complex>>, targets: seq<seq<Complex>>,
                    orders: seq<seq<nat>>, lr: real, e: nat)
    requires Sized(cfg, st) && (forall i :: 0 <= i < |orders| ==> InRange(orders[i], |vectors|))
    requires e < |orders|
    ensures Train(cfg, st, vectors, targets, orders[..e + 1], lr)
            == TrainNext(cfg, Train(cfg, st, vectors, targets, orders[..e], lr), vectors, targets, orders[e], lr)
  {
    var prefix := orders[..e + 1];
    assert prefix[..e] == orders[..e] && prefix[e] == orders[e];
  }

  /** A successful sample extends a running epoch by its state and RMS. */
  lemma {:induction false} EpochStep(cfg: MeshConfig, st: MeshState, vectors: seq<seq<Complex>>,
                                     targets: seq<seq<Complex>>, order: seq<nat>, lr: real, t: nat, t2: nat,
                                     s: MeshState, acc: real)
    requires Sized(cfg, st) && InRange(order, |vectors|) && t < |order| && t2 == t + 1
    requires GoingWith(Epoch(cfg, st, vectors, targets, order[..t], lr), s, acc)
    requires SampleStep(cfg, s, vectors, targets, order[t], lr).Success?
    ensures InRange(order[..t2], |vectors|)
    ensures var step := SampleStep(cfg, s, vectors, targets, order[t], lr).value;
            GoingWith(Epoch(cfg, st, vectors, targets, order[..t2], lr), step.0, acc + step.1)
  {
    InRangePrefix(order, |vectors|, t2);
    EpochUnfold(cfg, st, vectors, targets, order, lr, t);
    assert order[..t2] == order[..t + 1];
  }

  /** A completed epoch over at least one sample appends its mean RMS to the history. */
  lemma {:induction false} TrainStep(cfg: MeshConfig, st: MeshState, vectors: seq<seq<Complex>>,
                                     targets: seq<seq<Complex>>, orders: seq<seq<nat>>, lr: real, e: nat,
                                     e2: nat, s: MeshState, losses: seq<real>)
    requires Sized(cfg, st) && (forall i :: 0 <= i < |orders| ==> InRange(orders[i], |vectors|))
    requires e < |orders| && e2 == e + 1 && |vectors| > 0
    requires GoingWith(Train(cfg, st, vectors, targets, orders[..e], lr), s, losses)
    requires Epoch(cfg, s, vectors, targets, orders[e], lr).Going?
    ensures var ep := Epoch(cfg, s, vectors, targets, orders[e], lr);
            GoingWith(Train(cfg, st, vectors, targets, orders[..e2], lr), ep.st, losses + [ep.acc / |vectors| as real])
  {
    TrainUnfold(cfg, st, vectors, targets, orders, lr, e);
    assert orders[..e2] == orders[..e + 1];
  }

  /** A failing sample halts the whole epoch in the state before it. */
  lemma {:induction false} EpochFails(cfg: MeshConfig, st: MeshState, vectors: seq<seq<Complex>>, targets: seq<seq<Complex>>,
                   order: seq<nat>, lr: real, t: nat)
    requires Sized(cfg, st) && InRange(order, |vectors|) && t < |order|
    requires EpochNext(cfg, Epoch(cfg, st, vectors, targets, order[..t], lr), vectors, targets, order[t], lr).Halted?
    ensures Epoch(cfg, st, vectors, targets, order, lr)
            == EpochNext(cfg, Epoch(cfg, st, vectors, targets, order[..t], lr), vectors, targets, order[t], lr)
  {
    EpochUnfold(cfg, st, vectors, targets, order, lr, t);
    EpochHaltedStays(cfg, st, vectors, targets, order, lr, t + 1);
  }

  /** A halting epoch halts training. */
  lemma {:induction false} TrainFails(cfg: MeshConfig, st: MeshState, vectors: seq<seq<Complex>>, targets: seq<seq<Complex>>,
                   orders: seq<seq<nat>>, lr: real, e: nat)
    requires Sized(cfg, st) && (forall i :: 0 <= i < |orders| ==> InRange(orders[i], |vectors|))
    requires e < |orders|
    requires TrainNext(cfg, Train(cfg, st, vectors, targets, orders[..e], lr), vectors, targets, orders[e], lr).Halted?
    ensures Train(cfg, st, vectors, targets, orders, lr)
            == TrainNext(cfg, Train(cfg, st, vectors, targets, orders[..e], lr), vectors, targets, orders[e], lr)
  {
    TrainUnfold(cfg, st, vectors, targets, orders, lr, e);
    TrainHaltedStays(cfg, st, vectors, targets, orders, lr, e + 1);
  }

  // ---------------------------------------------------------------------
  // Properties of training

  /** Once an epoch has halted, the rest of its samples are never run. */
  lemma {:induction false} EpochHaltedStays(cfg: MeshConfig, st: MeshState, vectors: seq<seq<Complex>>,
                                            targets: seq<seq<Complex>>, order: seq<nat>, lr: real, t: nat)
    requires Sized(cfg, st) && InRange(order, |vectors|) && t <= |order|
    requires Epoch(cfg, st, vectors, targets, order[..t], lr).Halted?
    ensures Epoch(cfg, st, vectors, targets, order, lr) == Epoch(cfg, st, vectors, targets, order[..t], lr)
    decreases |order| - t
  {
    if t < |order| {
      assert order[..t + 1][..t] == order[..t];
      EpochHaltedStays(cfg, st, vectors, targets, order, lr, t + 1);
    } else {
      assert order[..t] == order;
    }
  }

  /** Once training has halted, the remaining epochs are never run. */
  lemma {:induction false} TrainHaltedStays(cfg: MeshConfig, st: MeshState, vectors: seq<seq<Complex>>,
                                            targets: seq<seq<Complex>>, orders: seq<seq<nat>>, lr: real, e: nat)
    requires Sized(cfg, st) && (forall i :: 0 <= i < |orders| ==> InRange(orders[i], |vectors|))
    requires e <= |orders|
    requires Train(cfg, st, vectors, targets, orders[..e], lr).Halted?
    ensures Train(cfg, st, vectors, targets, orders, lr) == Train(cfg, st, vectors, targets, orders[..e], lr)
    decreases |orders| - e
  {
    if e < |orders| {
      assert orders[..e + 1][..e] == orders[..e];
      TrainHaltedStays(cfg, st, vectors, targets, orders, lr, e + 1);
    } else {
      assert orders[..e] == orders;
    }
  }

  /** A completed run returns one loss per epoch. */
  lemma {:induction false} TrainLength(cfg: MeshConfig, st: MeshState, vectors: seq<seq<Complex>>,
                                       targets: seq<seq<Complex>>, orders: seq<seq<nat>>, lr: real)
    requires Sized(cfg, st) && forall e :: 0 <= e < |orders| ==> InRange(orders[e], |vectors|)
    ensures Train(cfg, st, vectors, targets, orders, lr).Going? ==>
              |Train(cfg, st, vectors, targets, orders, lr).acc| == |orders|
    decreases |orders|
  {
    if orders != [] {
      TrainLength(cfg, st, vectors, targets, orders[..|orders| - 1], lr);
    }
  }

  /** Each sample of a completed epoch draws B values, so the seed advances |order| · B times. */
  lemma {:induction false} EpochSeed(cfg: MeshConfig, st: MeshState, vectors: seq<seq<Complex>>,
                                     targets: seq<seq<Complex>>, order: seq<nat>, lr: real)
    requires Sized(cfg, st) && InRange(order, |vectors|)
    ensures Epoch(cfg, st, vectors, targets, order, lr).Going? ==>
              Epoch(cfg, st, vectors, targets, order, lr).st.seed
              == Advance(st.seed, Batches(|order|, SclBins(|st.theta|)))
    decreases |order|
  {
    if order != [] {
      var last := |order| - 1;
      var b := SclBins(|st.theta|);
      EpochSeed(cfg, st, vectors, targets, order[..last], lr);
      var prev := Epoch(cfg, st, vectors, targets, order[..last], lr);
      if prev.Going? {
        var s := SampleStep(cfg, prev.st, vectors, targets, order[last], lr);
        if s.Success? {
          AdvanceBatches(st.seed, last, b);
        }
      }
    }
  }

  /** The number of samples the epochs of a run visit. */
  function SamplesVisited(orders: seq<seq<nat>>): nat
  {
    if orders == [] then 0 else SamplesVisited(orders[..|orders| - 1]) + |orders[|orders| - 1]|
  }

  /** When every order is a permutation of the n samples, the epochs visit epochs · n samples. */
  lemma {:induction false} SamplesVisitedUniform(orders: seq<seq<nat>>, n: nat)
    requires forall e :: 0 <= e < |orders| ==> |orders[e]| == n
    ensures SamplesVisited(orders) == |orders| * n
  {
    if orders != [] {
      SamplesVisitedUniform(orders[..|orders| - 1], n);
    }
  }

  /**
    A completed run performs one SCL update, hence B draws, per visited
    sample: the seed advances SamplesVisited(orders) · B times.
  */
  lemma {:induction false} TrainSeed(cfg: MeshConfig, st: MeshState, vectors: seq<seq<Complex>>,
                                     targets: seq<seq<Complex>>, orders: seq<seq<nat>>, lr: real)
    requires Sized(cfg, st) && forall e :: 0 <= e < |orders| ==> InRange(orders[e], |vectors|)
    ensures Train(cfg, st, vectors, targets, orders, lr).Going? ==>
              Train(cfg, st, vectors, targets, orders, lr).st.seed
              == Advance(st.seed, Batches(SamplesVisited(orders), SclBins(|st.theta|)))
    decreases |orders|
  {
    if orders != [] {
      var last := |orders| - 1;
      var b := SclBins(|st.theta|);
      TrainSeed(cfg, st, vectors, targets, orders[..last], lr);
      var prev := Train(cfg, st, vectors, targets, orders[..last], lr);
      if prev.Going? {
        TrainSeedStep(cfg, st, vectors, targets, orders, lr);
      }
    }
  }

  /** The inductive step of TrainSeed: the last epoch adds |orders[last]| · B draws. */
  lemma {:induction false} TrainSeedStep(cfg: MeshConfig, st: MeshState, vectors: seq<seq<Complex>>,
                      targets: seq<seq<Complex>>, orders: seq<seq<nat>>, lr: real)
    requires Sized(cfg, st) && forall e :: 0 <= e < |orders| ==> InRange(orders[e], |vectors|)
    requires orders != []
    requires Train(cfg, st, vectors, targets, orders[..|orders| - 1], lr).Going?
    requires Train(cfg, st, vectors, targets, orders[..|orders| - 1], lr).st.seed
             == Advance(st.seed, Batches(SamplesVisited(orders[..|orders| - 1]), SclBins(|st.theta|)))
    ensures Train(cfg, st, vectors, targets, orders, lr).Going? ==>
              Train(cfg, st, vectors, targets, orders, lr).st.seed
              == Advance(st.seed, Batches(SamplesVisited(orders), SclBins(|st.theta|)))
  {
    var last := |orders| - 1;
    var b := SclBins(|st.theta|);
    var prev := Train(cfg, st, vectors, targets, orders[..last], lr);
    var epoch := Epoch(cfg, prev.st, vectors, targets, orders[last], lr);
    var r := Train(cfg, st, vectors, targets, orders, lr);
    if r.Going? {
      assert epoch.Going? && r.st == epoch.st;
      EpochSeed(cfg, prev.st, vectors, targets, orders[last], lr);
      assert |prev.st.theta| == |st.theta|;
      assert SamplesVisited(orders) == SamplesVisited(orders[..last]) + |orders[last]|;
      SeedChain(st.seed, prev.st.seed, r.st.seed, SamplesVisited(orders[..last]), |orders[last]|,
                SamplesVisited(orders), b);
    }
  }

  /** No index is below zero, so an order over no samples is empty. */
  lemma {:induction false} NoIndexBelowZero(order: seq<nat>)
    requires InRange(order, 0)
    ensures order == []
  {
    if order != [] {
      InRangeFirst(order, 0);
      assert false;
    }
  }

  /** The first sample of a nonempty in-range order is a valid index. */
  lemma {:induction false} InRangeFirst(order: seq<nat>, n: nat)
    requires InRange(order, n) && order != []
    ensures order[0] < n
  {
  }

  /** With no training vectors, a run of at least one epoch ends in ZeroDivisionError, state untouched. */
  lemma {:induction false} NoSamplesDivides(cfg: MeshConfig, st: MeshState, targets: seq<seq<Complex>>,
                         orders: seq<seq<nat>>, lr: real)
    requires Sized(cfg, st) && |orders| >= 1
    requires forall e :: 0 <= e < |orders| ==> InRange(orders[e], 0)
    ensures Train(cfg, st, [], targets, orders, lr) == Halted(st, ZeroDivisionError)
  {
    NoIndexBelowZero(orders[0]);
    assert orders[..1][..0] == [];
    TrainHaltedStays(cfg, st, [], targets, orders, lr, 1);
  }

  // =====================================================================
  // Weight statistics

  /** The dictionary `resonator_stats` returns. */
  datatype ResonatorStats = ResonatorStats(
    meanWeight: real, stdWeight: real, minWeight: real, maxWeight: real,
    qFactor: real, numResonators: nat, probeWavelength: real)

  function Sum(w: seq<real>): real
  {
    if w == [] then 0.0 else Sum(w[..|w| - 1]) + w[|w| - 1]
  }

  function Min(w: seq<real>): (r: real)
    requires |w| >= 1
    ensures forall k :: 0 <= k < |w| ==> r <= w[k]
    ensures r in w
  {
    if |w| == 1 then w[0]
    else
      var m := Min(w[..|w| - 1]);
      assert forall k :: 0 <= k < |w| - 1 ==> w[k] == w[..|w| - 1][k];
      if w[|w| - 1] < m then w[|w| - 1] else m
  }

  function Max(w: seq<real>): (r: real)
    requires |w| >= 1
    ensures forall k :: 0 <= k < |w| ==> w[k] <= r
    ensures r in w
  {
    if |w| == 1 then w[0]
    else
      var m := Max(w[..|w| - 1]);
      assert forall k :: 0 <= k < |w| - 1 ==> w[k] == w[..|w| - 1][k];
      if w[|w| - 1] > m then w[|w| - 1] else m
  }

  /** `np.var`: the mean squared deviation from the mean. */
  function Variance(w: seq<real>): real
    requires |w| >= 1
  {
    var mu := Sum(w) / |w| as real;
    Sum(seq(|w|, k requires 0 <= k < |w| => (w[k] - mu) * (w[k] - mu))) / |w| as real
  }

  /** A sum of values between lo and hi lies between |w|·lo and |w|·hi. */
  lemma {:induction false} SumBounds(w: seq<real>, lo: real, hi: real)
    requires forall k :: 0 <= k < |w| ==> lo <= w[k] <= hi
    ensures |w| as real * lo <= Sum(w) <= |w| as real * hi
  {
    if w != [] {
      var u := w[..|w| - 1];
      assert forall k :: 0 <= k < |u| ==> u[k] == w[k];
      SumBounds(u, lo, hi);
      assert |w| as real * lo == |u| as real * lo + lo;
      assert |w| as real * hi == |u| as real * hi + hi;
    }
  }

  /** The mean lies between the minimum and the maximum. */
  lemma {:induction false} MeanBounds(w: seq<real>)
    requires |w| >= 1
    ensures Min(w) <= Sum(w) / |w| as real <= Max(w)
  {
    MeanBetween(w, Min(w), Max(w));
  }

  /** The mean of values between lo and hi lies between lo and hi. */
  lemma {:induction false} MeanBetween(w: seq<real>, lo: real, hi: real)
    requires |w| >= 1
    requires forall k :: 0 <= k < |w| ==> lo <= w[k] <= hi
    ensures lo <= Sum(w) / |w| as real <= hi
  {
    SumBounds(w, lo, hi);
    DivBetween(Sum(w), |w| as real, lo, hi);
  }

  /**
    `resonator_stats()`: numpy's `min` of an empty array raises ValueError;
    otherwise the minimum, mean and maximum bracket one another and every weight.
  */
  function Stats(ph: Physics, w: seq<real>, q: real, numMzi: nat, probe: real): (r: Result<ResonatorStats>)
    ensures r.Success? <==> |w| >= 1
    ensures r.Success? ==> r.value.minWeight <= r.value.meanWeight <= r.value.maxWeight
    ensures r.Success? ==> forall k :: 0 <= k < |w| ==> r.value.minWeight <= w[k] <= r.value.maxWeight
    ensures r.Success? ==> r.value.numResonators == numMzi && r.value.qFactor == q
  {
    if |w| == 0 then Failure(ValueError)
    else
      var mean := Sum(w) / |w| as real;
      MeanBounds(w);
      Success(ResonatorStats(mean, ph.sqrt(Variance(w)), Min(w), Max(w), q, numMzi, probe))
  }
}
