/**
  The stateful objects of the photonic core: the waveguide and WDM
  figures, the ring resonator and the MZI-mesh matrix multiplier.

  `PhotonicMatrixMultiplier` keeps the source's numpy arrays as Dafny
  arrays that its methods update in place (`theta`, `phi`, the resonance
  wavelengths), its cached index tables as constant sequences and its
  resonator objects as instances of `RingResonator`. Every method is
  proved against the value-level functions of MeshSpec.
*/
module PhotonicCore {
  import opened Wrappers
  import opened Numerics
  import opened MziIndices
  import opened SclRandom
  import opened MeshSpec

  // =====================================================================
  // Waveguide and WDM figures

  /** `PhotonicWaveguide`: lengths in μm and nm, loss in dB/cm. */
  datatype PhotonicWaveguide = PhotonicWaveguide(
    length: real, width: real, height: real, refractiveIndex: real, lossDbPerCm: real)

  /** The dataclass defaults: 1000 μm of 500 nm × 220 nm silicon at 2 dB/cm. */
  const DefaultWaveguide: PhotonicWaveguide := PhotonicWaveguide(1000.0, 500.0, 220.0, 3.48, 2.0)

  /** `propagation_loss()`: the loss rate times the length converted to centimetres. */
  function PropagationLoss(w: PhotonicWaveguide): (r: real)
    ensures w.length >= 0.0 && w.lossDbPerCm >= 0.0 ==> r >= 0.0
    ensures w.length == 10000.0 ==> r == w.lossDbPerCm
  {
    w.lossDbPerCm * (w.length / 10000.0)
  }

  /** Loss in dB is additive along the waveguide: two pieces lose what the whole loses. */
  lemma {:induction false} PropagationLossAdditive(w: PhotonicWaveguide, a: real, b: real)
    ensures PropagationLoss(w.(length := a + b))
            == PropagationLoss(w.(length := a)) + PropagationLoss(w.(length := b))
  {
    assert (a + b) / 10000.0 == a / 10000.0 + b / 10000.0;
  }

  /** `WDMMultiplexer`, of which the model keeps the channel count. */
  datatype WdmMultiplexer = WdmMultiplexer(numChannels: int)

  /** The 100 Gbps every channel is assumed to carry. */
  const PerChannelGbps: real := 100.0

  /** `aggregate_bandwidth()` in Tbps: 100 Gbps per channel, so a tenth of a Tbps each. */
  function AggregateBandwidth(w: WdmMultiplexer): (r: real)
    ensures r * 10.0 == w.numChannels as real
  {
    (w.numChannels as real * PerChannelGbps) / 1000.0
  }

  /** Bandwidth adds up over channels: a multiplexer of a + b channels carries both. */
  lemma {:induction false} AggregateBandwidthAdditive(a: int, b: int)
    ensures AggregateBandwidth(WdmMultiplexer(a + b))
            == AggregateBandwidth(WdmMultiplexer(a)) + AggregateBandwidth(WdmMultiplexer(b))
  {
  }

  // =====================================================================
  // The ring resonator

  class RingResonator {
    const qualityFactor: real
    const couplingCoefficient: real
    /** Mutable for tuning: the multiplier re-syncs it after every SCL update. */
    var resonanceWavelength: real

    constructor (q: real, kappa: real, res: real)
      ensures qualityFactor == q && couplingCoefficient == kappa && resonanceWavelength == res
    {
      qualityFactor := q;
      couplingCoefficient := kappa;
      resonanceWavelength := res;
    }

    /**
      `amplitude_weight(probe, M)`: the binomial moment average of the
      M + 1 Lorentzian amplitude samples, clipped to [0, 1]. Q = 0 fails
      computing the half-width; a zero resonance fails at the first
      fractional detuning; a negative order samples nothing.
    */
    method AmplitudeWeight(ph: Physics, probe: real, m: int) returns (r: Result<real>)
      ensures qualityFactor == 0.0 ==> r == Failure(ZeroDivisionError)
      ensures qualityFactor != 0.0 && m < 0 ==> r == Success(0.0)
      ensures qualityFactor != 0.0 && m >= 0 && resonanceWavelength == 0.0 ==> r == Failure(ZeroDivisionError)
      ensures qualityFactor != 0.0 && m >= 0 && resonanceWavelength != 0.0 ==>
                r == Success(Weight(ph, qualityFactor, probe, resonanceWavelength, m))
    {
      var q := qualityFactor;
      if q == 0.0 {
        return Failure(ZeroDivisionError);
      }
      var hwhm := 1.0 / (2.0 * q);
      var dlam := probe / (2.0 * q);
      var total := 0.0;
      if m >= 0 {
        ghost var amps := Amplitudes(ph, q, probe, resonanceWavelength, m);
        var k: nat := 0;
        while k < m + 1
          invariant k <= m + 1
          invariant total == KernelSum(m, amps, k)
          invariant k > 0 ==> resonanceWavelength != 0.0
        {
          var lamK := probe + (k as real - m as real / 2.0) * dlam;
          if resonanceWavelength == 0.0 {
            return Failure(ZeroDivisionError);
          }
          var tK := ph.lorentz(hwhm, lamK, resonanceWavelength);
          var ampK := ph.sqrt(tK);
          var binomW := Binom(m, k) as real / Pow2(m) as real;
          MomentWavelengthOf(probe, q, m, k, dlam);
          assert ampK == MomentAmplitude(ph, q, probe, resonanceWavelength, m, k);
          assert amps[k] == MomentAmplitude(ph, q, probe, resonanceWavelength, m, k);
          assert binomW == BinomWeight(m, k);
          total := total + binomW * ampK;
          k := k + 1;
        }
      }
      return Success(Clip(total, 0.0, 1.0));
    }
  }

  /** The wavelength `AmplitudeWeight` computes for moment k is the one the specification samples. */
  lemma MomentWavelengthOf(probe: real, q: real, m: nat, k: nat, dlam: real)
    requires q != 0.0 && dlam == probe / (2.0 * q)
    ensures probe + (k as real - m as real / 2.0) * dlam == MomentWavelength(probe, q, m, k)
  {
  }

  // =====================================================================
  // encode_matrix, specified on values

  /** `U[i, j]` exists. */
  predicate Inside(u: seq<seq<Complex>>, p: (nat, nat))
  {
    p.0 < |u| && p.1 < |u[p.0]|
  }

  /** The index of the first pair at or after k that the matrix does not contain, or |pairs|. */
  function FirstOutside(u: seq<seq<Complex>>, pairs: seq<(nat, nat)>, k: nat): (r: nat)
    requires k <= |pairs|
    ensures k <= r <= |pairs|
    ensures forall t :: k <= t < r ==> Inside(u, pairs[t])
    ensures r < |pairs| ==> !Inside(u, pairs[r])
    decreases |pairs| - k
  {
    if k == |pairs| || !Inside(u, pairs[k]) then k else FirstOutside(u, pairs, k + 1)
  }

  /** `np.angle(U[i, j])`, the phase written for pair p. */
  function EncodedTheta(ph: Physics, u: seq<seq<Complex>>, p: (nat, nat)): real
    requires Inside(u, p)
  {
    Angle(ph, u[p.0][p.1])
  }

  /** `clip(|U[i, j]|, 0, π/2)`, the phase written for pair p. */
  function EncodedPhi(ph: Physics, u: seq<seq<Complex>>, p: (nat, nat)): (r: real)
    requires Inside(u, p)
    ensures 0.0 <= r <= Pi / 2.0
  {
    Clip(Abs(ph, u[p.0][p.1]), 0.0, Pi / 2.0)
  }

  /** Scanning from k, the first pair outside the matrix is the first one after k that fails. */
  lemma {:induction false} FirstOutsideAt(u: seq<seq<Complex>>, pairs: seq<(nat, nat)>, k: nat, idx: nat)
    requires k <= idx <= |pairs|
    requires forall t :: k <= t < idx ==> Inside(u, pairs[t])
    requires idx < |pairs| ==> !Inside(u, pairs[idx])
    ensures FirstOutside(u, pairs, k) == idx
    decreases idx - k
  {
    if k < idx {
      FirstOutsideAt(u, pairs, k + 1, idx);
    }
  }

  /** A matrix of `rows` rows of `cols` entries each. */
  predicate Rectangular(u: seq<seq<Complex>>, rows: nat, cols: nat)
  {
    |u| == rows && forall t :: 0 <= t < |u| ==> |u[t]| == cols
  }

  /**
    `encode_matrix` writes every phase exactly when U reaches the last pair
    (n − 2, n − 1) of the table: at least n − 1 rows of at least n columns.
  */
  lemma {:induction false} EncodeCompleteIff(u: seq<seq<Complex>>, n: nat, rows: nat, cols: nat)
    requires Rectangular(u, rows, cols)
    ensures FirstOutside(u, Pairs(n), 0) == |Pairs(n)| <==> (n < 2 || (n - 1 <= rows && n <= cols))
  {
    PairsLength(n);
    var stop := FirstOutside(u, Pairs(n), 0);
    if n >= 2 && (n - 1 <= rows && n <= cols) {
      forall t | 0 <= t < |Pairs(n)| ensures Inside(u, Pairs(n)[t]) {
        PairsInRange(n, t);
      }
      FirstOutsideAt(u, Pairs(n), 0, |Pairs(n)|);
    }
    if n >= 2 && !(n - 1 <= rows && n <= cols) {
      PairAt(n - 2, n - 1, n);
    }
  }

  /**
    The phases of the first idx pairs are encoded from the matrix, and the
    rest still hold their earlier values.
  */
  ghost predicate EncodedUpTo(ph: Physics, u: seq<seq<Complex>>, pairs: seq<(nat, nat)>,
                              theta: seq<real>, phi: seq<real>, theta0: seq<real>, phi0: seq<real>,
                              idx: nat)
  {
    && idx <= |pairs| == |theta| == |phi| == |theta0| == |phi0|
    && (forall t :: 0 <= t < idx ==> Inside(u, pairs[t]))
    && (forall t :: 0 <= t < idx ==> theta[t] == EncodedTheta(ph, u, pairs[t]))
    && (forall t :: 0 <= t < idx ==> phi[t] == EncodedPhi(ph, u, pairs[t]))
    && (forall t :: idx <= t < |theta| ==> theta[t] == theta0[t] && phi[t] == phi0[t])
  }

  /** Writing the encoded phases of pair idx extends the encoded prefix by one. */
  lemma {:induction false} EncodedUpToStep(ph: Physics, u: seq<seq<Complex>>, pairs: seq<(nat, nat)>,
                        theta: seq<real>, phi: seq<real>, theta0: seq<real>, phi0: seq<real>,
                        idx: nat)
    requires EncodedUpTo(ph, u, pairs, theta, phi, theta0, phi0, idx)
    requires idx < |pairs| && Inside(u, pairs[idx])
    ensures EncodedUpTo(ph, u, pairs, theta[idx := EncodedTheta(ph, u, pairs[idx])],
                        phi[idx := EncodedPhi(ph, u, pairs[idx])], theta0, phi0, idx + 1)
  {
  }

  /**
    One row of the nested loops of `encode_matrix`: pair (i, j), for j
    from i + 1 up, while fewer than `num_mzi` phases are written, sets
    θ[idx] = angle(U[i, j]) and φ[idx] = clip(|U[i, j]|, 0, π/2). The
    first pair outside U raises IndexError and leaves the earlier writes
    in place.
  */
  method EncodeRow(ph: Physics, n: nat, i: nat, theta: array<real>, phi: array<real>,
                   u: seq<seq<Complex>>, idx0: nat, ghost theta0: seq<real>, ghost phi0: seq<real>)
    returns (idx: nat, r: Result<()>)
    requires theta != phi && i < n
    requires idx0 == |RowsBefore(i, n)|
    requires EncodedUpTo(ph, u, Pairs(n), theta[..], phi[..], theta0, phi0, idx0)
    modifies theta, phi
    ensures r.Success? ==> idx == |RowsBefore(i + 1, n)|
    ensures r.Success? ==> EncodedUpTo(ph, u, Pairs(n), theta[..], phi[..], theta0, phi0, idx)
    ensures r.Failure? ==> r == Failure(IndexError) && idx < |Pairs(n)| && !Inside(u, Pairs(n)[idx])
    ensures r.Failure? ==> EncodedUpTo(ph, u, Pairs(n), theta[..], phi[..], theta0, phi0, idx)
  {
    ghost var pairs := Pairs(n);
    var numMzi := NumMzi(n);
    PairsLength(n);
    idx := idx0;
    var j := i + 1;
    while j < n
      invariant i + 1 <= j <= n
      invariant idx == |RowsBefore(i, n)| + (j - i - 1) <= |pairs|
      invariant EncodedUpTo(ph, u, pairs, theta[..], phi[..], theta0, phi0, idx)
    {
      PairAt(i, j, n);
      if idx < numMzi {
        if !(i < |u| && j < |u[i]|) {
          return idx, Failure(IndexError);
        }
        EncodedUpToStep(ph, u, pairs, theta[..], phi[..], theta0, phi0, idx);
        theta[idx] := Angle(ph, u[i][j]);
        phi[idx] := Clip(Abs(ph, u[i][j]), 0.0, Pi / 2.0);
        idx := idx + 1;
      }
      j := j + 1;
    }
    assert RowsBefore(i + 1, n) == RowsBefore(i, n) + Row(i, n);
    return idx, Success(());
  }

  /** `encode_matrix`'s outer loop over the rows of the table. */
  method EncodeLoop(ph: Physics, n: nat, theta: array<real>, phi: array<real>, u: seq<seq<Complex>>)
    returns (r: Result<()>)
    requires theta != phi && theta.Length == phi.Length == |Pairs(n)|
    modifies theta, phi
    ensures var stop := FirstOutside(u, Pairs(n), 0);
            && (r.Failure? <==> stop < |Pairs(n)|)
            && (r.Failure? ==> r.error == IndexError)
            && EncodedUpTo(ph, u, Pairs(n), theta[..], phi[..], old(theta[..]), old(phi[..]), stop)
  {
    ghost var pairs := Pairs(n);
    var idx := 0;
    var i := 0;
    RowsBeforePrefix(0, n, n);
    while i < n
      invariant i <= n
      invariant idx == |RowsBefore(i, n)| <= |pairs|
      invariant EncodedUpTo(ph, u, pairs, theta[..], phi[..], old(theta[..]), old(phi[..]), idx)
    {
      var res;
      idx, res := EncodeRow(ph, n, i, theta, phi, u, idx, old(theta[..]), old(phi[..]));
      if res.Failure? {
        FirstOutsideAt(u, pairs, 0, idx);
        return res;
      }
      RowsBeforePrefix(i + 1, n, n);
      i := i + 1;
    }
    FirstOutsideAt(u, pairs, 0, idx);
    return Success(());
  }

  // =====================================================================
  // The loops of the two forward passes

  /** One MZI element in place: both channels are rewritten from their values before the step. */
  method ApplyCoupler(state: array<Complex>, i: nat, j: nat, c: real, s: Complex)
    requires i < state.Length && j < state.Length && i != j
    modifies state
    ensures state[..] == Coupler(old(state[..]), i, j, c, s)
  {
    var ai, aj := state[i], state[j];
    state[i] := Sub(Scale(c, ai), Mul(s, aj));
    state[j] := Add(Mul(Conj(s), ai), Scale(c, aj));
  }

  /** One resonator-weighted MZI element in place: both channels are scaled by w before the coupler. */
  method ApplyWeightedCoupler(state: array<Complex>, i: nat, j: nat, w: real, c: real, s: Complex)
    requires i < state.Length && j < state.Length && i != j
    modifies state
    ensures state[..] == Coupler(Attenuate(old(state[..]), i, j, w), i, j, c, s)
  {
    var ai := Scale(w, state[i]);
    var aj := Scale(w, state[j]);
    state[i] := Sub(Scale(c, ai), Mul(s, aj));
    state[j] := Add(Mul(Conj(s), ai), Scale(c, aj));
  }

  /** Every pair of the table is (i, j) with i < j. */
  predicate Ascending(pairs: seq<(nat, nat)>)
  {
    forall k :: 0 <= k < |pairs| ==> pairs[k].0 < pairs[k].1
  }

  /**
    The loop of `multiply` on a copy of the vector: element k reads c and s
    from the precomputed coefficient arrays and rewrites channels i_k and
    j_k in place; a channel beyond the copy raises IndexError.
  */
  method MeshLoop(ph: Physics, pairs: seq<(nat, nat)>, rows: seq<nat>, cols: seq<nat>,
                  theta: seq<real>, phi: seq<real>, vector: seq<Complex>)
    returns (r: Result<seq<Complex>>)
    requires |rows| == |cols| == |pairs| == |theta| == |phi| && Ascending(pairs)
    requires forall k :: 0 <= k < |rows| ==> (rows[k], cols[k]) == pairs[k]
    ensures Fits(pairs, |pairs|, |vector|) ==> r == Success(MeshPass(ph, pairs, theta, phi, vector, |pairs|))
    ensures !Fits(pairs, |pairs|, |vector|) ==> r == Failure(IndexError)
  {
    var m := |rows|;
    var state := new Complex[|vector|](t requires 0 <= t < |vector| => vector[t]);
    assert state[..] == vector;
    var k := 0;
    while k < m
      invariant k <= m
      invariant Fits(pairs, k, |vector|)
      invariant state[..] == MeshPass(ph, pairs, theta, phi, vector, k)
    {
      var i, j := rows[k], cols[k];
      if i >= state.Length || j >= state.Length {
        return Failure(IndexError);
      }
      ApplyCoupler(state, i, j, CosCoeff(ph, theta, k), SinCoeff(ph, theta, phi, k));
      k := k + 1;
      MeshPassStep(ph, pairs, theta, phi, vector, k - 1, k);
    }
    return Success(state[..]);
  }

  /**
    The loop of `multiply_resonator_weighted`: as `MeshLoop`, with element
    k first scaling both of its channels by the weight w[k].
  */
  method WeightedLoop(ph: Physics, pairs: seq<(nat, nat)>, rows: seq<nat>, cols: seq<nat>,
                      theta: seq<real>, phi: seq<real>, w: seq<real>, vector: seq<Complex>)
    returns (r: Result<seq<Complex>>)
    requires |rows| == |cols| == |pairs| == |theta| == |phi| == |w| && Ascending(pairs)
    requires forall k :: 0 <= k < |rows| ==> (rows[k], cols[k]) == pairs[k]
    ensures Fits(pairs, |pairs|, |vector|) ==>
              r == Success(WeightedPass(ph, pairs, theta, phi, w, vector, |pairs|))
    ensures !Fits(pairs, |pairs|, |vector|) ==> r == Failure(IndexError)
  {
    var m := |rows|;
    var state := new Complex[|vector|](t requires 0 <= t < |vector| => vector[t]);
    assert state[..] == vector;
    var k := 0;
    while k < m
      invariant k <= m
      invariant Fits(pairs, k, |vector|)
      invariant state[..] == WeightedPass(ph, pairs, theta, phi, w, vector, k)
    {
      var i, j := rows[k], cols[k];
      if i >= state.Length || j >= state.Length {
        return Failure(IndexError);
      }
      ApplyWeightedCoupler(state, i, j, w[k], CosCoeff(ph, theta, k), SinCoeff(ph, theta, phi, k));
      k := k + 1;
      WeightedPassStep(ph, pairs, theta, phi, w, vector, k - 1, k);
    }
    return Success(state[..]);
  }

  /** The index table of the mesh is ascending. */
  lemma {:induction false} PairsAscending(n: nat)
    ensures Ascending(Pairs(n))
  {
    forall k | 0 <= k < |Pairs(n)| ensures Pairs(n)[k].0 < Pairs(n)[k].1 {
      PairsInRange(n, k);
    }
  }

  // =====================================================================
  // The in-place updates of `scl_update`

  /** `theta += step; theta %= 2π` on the phase array. */
  method Rephase(theta: array<real>, step: seq<real>)
    requires |step| == theta.Length
    modifies theta
    ensures theta[..] == Rephased(old(theta[..]), step)
  {
    forall k | 0 <= k < theta.Length {
      theta[k] := theta[k] + step[k];
    }
    forall k | 0 <= k < theta.Length {
      theta[k] := FloorMod(theta[k], 2.0 * Pi);
    }
  }

  /** `_res_wavelengths += step * 0.01`. */
  method Retune(res: array<real>, step: seq<real>)
    requires |step| == res.Length
    modifies res
    ensures res[..] == Retuned(old(res[..]), step)
  {
    forall k | 0 <= k < res.Length {
      res[k] := res[k] + step[k] * 0.01;
    }
  }

  /** The sync loop: resonator k takes the k-th resonance wavelength. */
  method Sync(rs: seq<RingResonator>, ghost slot: map<RingResonator, nat>, res: array<real>)
    requires |rs| <= res.Length && Indexed(rs, slot)
    modifies slot.Keys
    ensures forall t :: 0 <= t < |rs| ==> rs[t].resonanceWavelength == res[t]
  {
    var k := 0;
    while k < |rs|
      invariant k <= |rs|
      invariant forall t :: 0 <= t < k ==> rs[t].resonanceWavelength == res[t]
    {
      rs[k].resonanceWavelength := res[k];
      k := k + 1;
    }
  }

  // =====================================================================
  // The matrix multiplier

  /**
    The objects of rs are distinct: slot maps each back to its position,
    and its keys are exactly those objects.
  */
  ghost predicate Indexed(rs: seq<RingResonator>, slot: map<RingResonator, nat>)
  {
    && (forall t :: 0 <= t < |rs| ==> rs[t] in slot && slot[rs[t]] == t)
    && (forall r :: r in slot ==> slot[r] < |rs| && rs[slot[r]] == r)
  }

  /** `[RingResonator(q, 0.08, res[k]) for k in range(num_mzi)]`: fresh, distinct objects. */
  method MakeResonators(q: real, res: seq<real>)
    returns (rs: seq<RingResonator>, ghost slot: map<RingResonator, nat>)
    ensures |rs| == |res|
    ensures Indexed(rs, slot)
    ensures forall t :: 0 <= t < |rs| ==> fresh(rs[t])
    ensures forall t :: 0 <= t < |rs| ==> rs[t].qualityFactor == q && rs[t].couplingCoefficient == 0.08
    ensures forall t :: 0 <= t < |rs| ==> rs[t].resonanceWavelength == res[t]
  {
    rs, slot := [], map[];
    var k := 0;
    while k < |res|
      invariant k <= |res| && |rs| == k
      invariant Indexed(rs, slot)
      invariant forall t :: 0 <= t < k ==> fresh(rs[t])
      invariant forall t :: 0 <= t < k ==> rs[t].qualityFactor == q && rs[t].couplingCoefficient == 0.08
      invariant forall t :: 0 <= t < k ==> rs[t].resonanceWavelength == res[t]
    {
      var r := new RingResonator(q, 0.08, res[k]);
      rs, slot := rs + [r], slot[r := k];
      k := k + 1;
    }
  }

  class PhotonicMatrixMultiplier {
    /** The kernels of cos, sin, sqrt, atan2 and the Lorentzian this instance computes with. */
    const physics: Physics
    const size: nat
    const numMzi: nat
    const probeWavelength: real
    const qFactor: real

    /** Phase shifters, one per MZI; `encode_matrix` and `scl_update` rewrite them in place. */
    const theta: array<real>
    const phi: array<real>
    /** `_res_wavelengths`, shifted in place by every SCL update. */
    const resWavelengths: array<real>

    /** `_mzi_i` and `_mzi_j`, built once by `_build_mzi_indices`. */
    const mziI: seq<nat>
    const mziJ: seq<nat>
    const resonators: seq<RingResonator>
    /** The position of each resonator object, witnessing that they are distinct. */
    ghost const slot: map<RingResonator, nat>
    const sclBins: nat
    const sclBinIds: seq<nat>

    var resonatorWeights: seq<real>
    var sclSeed: nat
    var sclLossHistory: seq<real>

    /** The parts of the object that the passes read and training never changes. */
    function Config(): MeshConfig
      reads this, phi
    {
      MeshConfig(physics, size, qFactor, probeWavelength, phi[..])
    }

    /** The parts training changes. */
    function State(): MeshState
      reads this, theta, resWavelengths
    {
      MeshState(theta[..], resWavelengths[..], sclSeed)
    }

    /**
      The construction-time part of the object invariant, over constant
      fields only: one entry per MZI everywhere, the index table is
      `Pairs(size)`, the bins are the pigeonhole bins, and the resonator
      objects are distinct and built with the multiplier's Q-factor and a
      coupling coefficient of 0.08.
    */
    ghost predicate Shape()
    {
      && numMzi == |Pairs(size)|
      && theta.Length == numMzi && phi.Length == numMzi && resWavelengths.Length == numMzi
      && theta != phi && theta != resWavelengths && phi != resWavelengths
      && |mziI| == numMzi && |mziJ| == numMzi
      && (forall k :: 0 <= k < numMzi ==> (mziI[k], mziJ[k]) == Pairs(size)[k])
      && qFactor != 0.0
      && sclBins == SclBins(numMzi) && sclBinIds == BinIds(numMzi, sclBins)
      && |resonators| == numMzi
      && Indexed(resonators, slot)
      && (forall k :: 0 <= k < numMzi ==> resonators[k].qualityFactor == qFactor)
      && (forall k :: 0 <= k < numMzi ==> resonators[k].couplingCoefficient == 0.08)
    }

    /**
      The object invariant: the shape, every resonator object in sync with
      its array entry, and the cached weights those of the current
      resonances.
    */
    ghost predicate Valid()
      reads this, theta, phi, resWavelengths, resonators
    {
      && Shape()
      && Synced()
      && resonatorWeights == ResonatorWeights(Config(), resWavelengths[..])
    }

    /** Every resonator object carries the resonance of its array entry. */
    ghost predicate Synced()
      reads this, resWavelengths, resonators
    {
      |resonators| <= resWavelengths.Length
      && forall k :: 0 <= k < |resonators| ==> resonators[k].resonanceWavelength == resWavelengths[k]
    }

    /**
      `__init__(size, q_factor, probe_wavelength)`. The random initial
      phases and the normal detuning are the parameters theta0, phi0 and
      detuning; a zero Q-factor would raise ZeroDivisionError in the first
      weight update, so it is excluded.
    */
    constructor (ph: Physics, n: nat, q: real, probe: real,
                 theta0: seq<real>, phi0: seq<real>, detuning: seq<real>)
      requires q != 0.0
      requires |theta0| == NumMzi(n) && |phi0| == NumMzi(n) && |detuning| == NumMzi(n)
      ensures Valid()
      ensures fresh(theta) && fresh(phi) && fresh(resWavelengths)
      ensures size == n && qFactor == q && probeWavelength == probe && physics == ph
      ensures theta[..] == theta0 && phi[..] == phi0
      ensures resWavelengths[..] == seq(NumMzi(n), k requires 0 <= k < NumMzi(n) => probe + detuning[k])
      ensures sclSeed == InitialSeed && sclLossHistory == []
    {
      var numMzi0 := NumMzi(n);
      PairsLength(n);
      var rows, cols := BuildMziIndices(n);
      var thetaArr := new real[numMzi0](k requires 0 <= k < numMzi0 => theta0[k]);
      var phiArr := new real[numMzi0](k requires 0 <= k < numMzi0 => phi0[k]);
      var resArr := new real[numMzi0](k requires 0 <= k < numMzi0 => probe + detuning[k]);
      assert thetaArr[..] == theta0 && phiArr[..] == phi0;
      assert resArr[..] == seq(numMzi0, k requires 0 <= k < numMzi0 => probe + detuning[k]);
      var rs, slot0 := MakeResonators(q, resArr[..]);
      physics := ph;
      size := n;
      numMzi := numMzi0;
      probeWavelength := probe;
      qFactor := q;
      theta := thetaArr;
      phi := phiArr;
      resWavelengths := resArr;
      mziI := rows;
      mziJ := cols;
      resonators := rs;
      slot := slot0;
      sclBins := SclBins(numMzi0);
      sclBinIds := BinIds(numMzi0, SclBins(numMzi0));
      resonatorWeights := ResonatorWeights(MeshConfig(ph, n, q, probe, phiArr[..]), resArr[..]);
      sclSeed := InitialSeed;
      sclLossHistory := [];
    }

    /**
      `_scl_next_batch(n)`: advances the seed n times and returns the n
      samples, each in [-0.5, 0.5).
    */
    method NextBatch(n: nat) returns (out: array<real>)
      modifies this`sclSeed
      ensures fresh(out)
      ensures out[..] == Draws(old(sclSeed), n)
      ensures sclSeed == Advance(old(sclSeed), n)
      ensures forall k :: 0 <= k < n ==> -0.5 <= out[k] < 0.5
    {
      out := new real[n];
      ghost var seed0 := sclSeed;
      var k := 0;
      while k < n
        invariant k <= n
        invariant sclSeed == Advance(seed0, k)
        invariant out[..k] == Draws(seed0, k)
      {
        sclSeed := (SclA * sclSeed + SclC) % SclM;
        out[k] := (sclSeed as real / SclM as real) - 0.5;
        assert out[..k + 1] == out[..k] + [out[k]];
        k := k + 1;
      }
      assert out[..] == out[..n];
      forall k | 0 <= k < n ensures -0.5 <= out[k] < 0.5 {
        DrawsAt(seed0, n, k);
      }
    }

    /**
      `multiply(vector)`: the baseline pass. Element k rewrites only
      channels i_k and j_k, both from their values before the step; a
      pair outside the vector raises IndexError.
    */
    method Multiply(vector: seq<Complex>) returns (r: Result<seq<Complex>>)
      requires Valid()
      ensures r == Multiplied(Config(), theta[..], vector)
      ensures r.Success? ==> |r.value| == |vector|
    {
      PairsAscending(size);
      r := MeshLoop(physics, Pairs(size), mziI, mziJ, theta[..], phi[..], vector);
    }

    /**
      `encode_matrix(matrix)`: the phases of the pairs that U contains are
      written in table order up to the first pair it does not contain,
      which raises IndexError; the resonances and hence the cached weights
      are untouched.
    */
    method EncodeMatrix(matrix: seq<seq<Complex>>) returns (r: Result<()>)
      requires Valid()
      modifies theta, phi
      ensures Valid()
      ensures var stop := FirstOutside(matrix, Pairs(size), 0);
              && (r.Failure? <==> stop < numMzi)
              && (r.Failure? ==> r.error == IndexError)
              && EncodedUpTo(physics, matrix, Pairs(size), theta[..], phi[..], old(theta[..]), old(phi[..]), stop)
      ensures resWavelengths[..] == old(resWavelengths[..])
    {
      ghost var cfg0 := Config();
      r := EncodeLoop(physics, size, theta, phi, matrix);
      ResonatorWeightsIgnorePhi(cfg0, Config(), resWavelengths[..]);
    }

    /**
      `scl_update(target, predicted, lr)`: one pigeonhole update. A
      residual of incompatible shapes raises ValueError before anything
      changes; otherwise B draws advance the seed, every phase and
      resonance moves by its bin's step, the resonator objects and the
      weights follow, and the RMS residual is returned.
    */
    method SclUpdate(target: seq<Complex>, predicted: seq<Complex>, lr: real) returns (r: Result<real>)
      requires Valid()
      modifies this`sclSeed, this`resonatorWeights, theta, resWavelengths,
               slot.Keys
      ensures Valid()
      ensures Config() == old(Config())
      ensures var out := SclStep(old(Config()), old(State()), target, predicted, lr);
              && (r.Failure? <==> out.Failure?)
              && (r.Failure? ==> r.error == ValueError && State() == old(State()))
              && (out.Success? ==> r == Success(out.value.1) && State() == out.value.0)
    {
      var residual := Residual(target, predicted);
      if residual.None? {
        r := Failure(ValueError);
      } else {
        var rms := SclApply(target, predicted, lr);
        r := Success(rms);
      }
    }

    /** The update of `scl_update` once the residual exists: the kicks, the retuned weights and the RMS. */
    method SclApply(target: seq<Complex>, predicted: seq<Complex>, lr: real) returns (rms: real)
      requires Valid() && Residual(target, predicted).Some?
      modifies this`sclSeed, this`resonatorWeights, theta, resWavelengths,
               slot.Keys
      ensures Valid()
      ensures Config() == old(Config())
      ensures var out := SclStep(old(Config()), old(State()), target, predicted, lr);
              out.Success? && rms == out.value.1 && State() == out.value.0
    {
      ghost var cfg0, st0 := Config(), State();
      var residual := Residual(target, predicted).value;
      rms := Rms(physics, residual);
      var norm := Norm(physics, residual);
      var batch := NextBatch(sclBins);
      var deltas := batch[..];
      var step := seq(numMzi, k requires 0 <= k < numMzi => Kick(lr, deltas[sclBinIds[k]], norm));
      assert step == Steps(lr, Draws(st0.seed, sclBins), norm, numMzi);
      ApplySteps(step);
      assert State() == MeshState(Rephased(st0.theta, step), Retuned(st0.res, step), Advance(st0.seed, sclBins));
    }

    /** The kicks of one update: the phases and resonances move, and the resonators and weights follow. */
    method ApplySteps(step: seq<real>)
      requires Valid() && |step| == numMzi
      modifies this`resonatorWeights, theta, resWavelengths, slot.Keys
      ensures Valid() && Config() == old(Config())
      ensures State() == MeshState(Rephased(old(theta[..]), step), Retuned(old(resWavelengths[..]), step), sclSeed)
    {
      Rephase(theta, step);
      Retune(resWavelengths, step);
      Sync(resonators, slot, resWavelengths);
      resonatorWeights := ResonatorWeights(Config(), resWavelengths[..]);
    }

    /**
      The body of the inner loop of `train_scl`: the weighted pass of
      sample idx, then `scl_update` against its target; an absent target
      is an IndexError.
    */
    method TrainSample(vectors: seq<seq<Complex>>, targets: seq<seq<Complex>>, idx: nat, lr: real)
      returns (r: Result<real>)
      requires Valid() && idx < |vectors|
      modifies this`sclSeed, this`resonatorWeights, theta, resWavelengths,
               slot.Keys
      ensures Valid() && Config() == old(Config())
      ensures var out := SampleStep(old(Config()), old(State()), vectors, targets, idx, lr);
              && (r.Success? <==> out.Success?)
              && (out.Success? ==> r == Success(out.value.1) && State() == out.value.0)
              && (out.Failure? ==> r == Failure(out.error) && State() == old(State()))
    {
      var pred := MultiplyResonatorWeighted(vectors[idx]);
      if pred.Failure? {
        return Failure(pred.error);
      }
      if idx >= |targets| {
        return Failure(IndexError);
      }
      r := SclUpdate(targets[idx], pred.value, lr);
    }

    /**
      The inner loop of `train_scl`: every sample of the shuffled order is
      passed through the weighted mesh and trained on with `scl_update`,
      summing the RMS residuals; the first exception ends the epoch.
    */
    method RunEpoch(vectors: seq<seq<Complex>>, targets: seq<seq<Complex>>, order: seq<nat>, lr: real)
      returns (r: Result<real>)
      requires Valid() && InRange(order, |vectors|)
      modifies this`sclSeed, this`resonatorWeights, theta, resWavelengths,
               slot.Keys
      ensures Valid() && Config() == old(Config())
      ensures var out := Epoch(old(Config()), old(State()), vectors, targets, order, lr);
              && State() == out.st
              && (r.Success? <==> out.Going?)
              && (out.Going? ==> r == Success(out.acc))
              && (out.Halted? ==> r == Failure(out.err))
    {
      ghost var cfg0, st0 := Config(), State();
      var epochRms := 0.0;
      var t := 0;
      while t < |order|
        invariant t <= |order| && Valid() && Config() == cfg0
        invariant InRange(order[..t], |vectors|)
        invariant GoingWith(Epoch(cfg0, st0, vectors, targets, order[..t], lr), State(), epochRms)
      {
        var idx := order[t];
        EpochUnfold(cfg0, st0, vectors, targets, order, lr, t);
        ghost var s := State();
        var rms := TrainSample(vectors, targets, idx, lr);
        if rms.Failure? {
          EpochFails(cfg0, st0, vectors, targets, order, lr, t);
          return Failure(rms.error);
        }
        ghost var acc := epochRms;
        epochRms := epochRms + rms.value;
        t := t + 1;
        EpochStep(cfg0, st0, vectors, targets, order, lr, t - 1, t, s, acc);
      }
      assert order[..t] == order;
      return Success(epochRms);
    }

    /**
      `train_scl(training_vectors, targets, epochs, lr)`. The shuffles of
      `np.random.shuffle` are the parameter `orders`, one permutation of
      the sample indices per epoch. Each epoch appends its mean RMS to the
      history, which is stored on completion; an exception, including the
      division by zero of an epoch over no samples, leaves the history as
      it was.
    */
    method TrainScl(vectors: seq<seq<Complex>>, targets: seq<seq<Complex>>, epochs: int, lr: real,
                    orders: seq<seq<nat>>)
      returns (r: Result<seq<real>>)
      requires Valid()
      requires |orders| == (if epochs < 0 then 0 else epochs)
      requires forall e :: 0 <= e < |orders| ==> IsPermutation(orders[e], |vectors|)
      modifies this`sclSeed, this`resonatorWeights, this`sclLossHistory, theta, resWavelengths,
               slot.Keys
      ensures Valid() && Config() == old(Config())
      ensures forall e :: 0 <= e < |orders| ==> InRange(orders[e], |vectors|)
      ensures var out := Train(old(Config()), old(State()), vectors, targets, orders, lr);
              && State() == out.st
              && (r.Success? <==> out.Going?)
              && (out.Going? ==> r == Success(out.acc) && sclLossHistory == out.acc)
              && (out.Halted? ==> r == Failure(out.err) && sclLossHistory == old(sclLossHistory))
    {
      forall e | 0 <= e < |orders| ensures InRange(orders[e], |vectors|) {
        PermutationInRange(orders[e], |vectors|);
      }
      var history;
      r, history := RunEpochs(vectors, targets, orders, lr);
      if r.Success? {
        sclLossHistory := history;
      }
    }

    /** The epoch loop of `train_scl`, with the history it builds. */
    method RunEpochs(vectors: seq<seq<Complex>>, targets: seq<seq<Complex>>, orders: seq<seq<nat>>, lr: real)
      returns (r: Result<seq<real>>, history: seq<real>)
      requires Valid()
      requires forall e :: 0 <= e < |orders| ==> InRange(orders[e], |vectors|)
      modifies this`sclSeed, this`resonatorWeights, theta, resWavelengths, slot.Keys
      ensures Valid() && Config() == old(Config())
      ensures Reports(Train(old(Config()), old(State()), vectors, targets, orders, lr), State(), r, history)
    {
      ghost var cfg0, st0 := Config(), State();
      history := [];
      var e := 0;
      r := Success(history);
      while e < |orders|
        invariant 0 <= e <= |orders| && Valid() && Config() == cfg0
        invariant r == Success(history)
        invariant GoingWith(Train(cfg0, st0, vectors, targets, orders[..e], lr), State(), history)
      {
        var next := TrainEpoch(vectors, targets, orders, lr, e, cfg0, st0, history);
        if next.Failure? {
          r := next;
          break;
        }
        history := next.value;
        e := e + 1;
        r := next;
      }
      if r.Success? {
        assert orders[..e] == orders;
      }
    }

    /**
      One pass of the epoch loop of `train_scl`: the epoch over
      `orders[e]`, then the append of `epoch_rms / n_samples` to the
      history. An exception ends the whole run.
    */
    method TrainEpoch(vectors: seq<seq<Complex>>, targets: seq<seq<Complex>>, orders: seq<seq<nat>>, lr: real,
                      e: nat, ghost cfg0: MeshConfig, ghost st0: MeshState, history: seq<real>)
      returns (r: Result<seq<real>>)
      requires Valid() && Config() == cfg0 && Sized(cfg0, st0) && e < |orders|
      requires forall i :: 0 <= i < |orders| ==> InRange(orders[i], |vectors|)
      requires GoingWith(Train(cfg0, st0, vectors, targets, orders[..e], lr), State(), history)
      modifies this`sclSeed, this`resonatorWeights, theta, resWavelengths, slot.Keys
      ensures Valid() && Config() == cfg0
      ensures r.Success? ==> GoingWith(Train(cfg0, st0, vectors, targets, orders[..e + 1], lr), State(), r.value)
      ensures r.Failure? ==> Reports(Train(cfg0, st0, vectors, targets, orders, lr), State(), r, history)
    {
      TrainUnfold(cfg0, st0, vectors, targets, orders, lr, e);
      ghost var s := State();
      var epochRms := RunEpoch(vectors, targets, orders[e], lr);
      if epochRms.Failure? {
        TrainFails(cfg0, st0, vectors, targets, orders, lr, e);
        return Failure(epochRms.error);
      }
      if |vectors| == 0 {
        TrainFails(cfg0, st0, vectors, targets, orders, lr, e);
        return Failure(ZeroDivisionError);
      }
      TrainStep(cfg0, st0, vectors, targets, orders, lr, e, e + 1, s, history);
      r := Success(history + [epochRms.value / |vectors| as real]);
    }

    /**
      `multiply_resonator_weighted(vector)`: the pass with element k's
      channels scaled by the cached weight `resonator_weights[k]`.
    */
    method MultiplyResonatorWeighted(vector: seq<Complex>) returns (r: Result<seq<Complex>>)
      requires Valid()
      ensures r == WeightedMultiplied(Config(), State(), vector)
      ensures r.Success? ==> |r.value| == |vector|
    {
      PairsAscending(size);
      r := WeightedLoop(physics, Pairs(size), mziI, mziJ, theta[..], phi[..], resonatorWeights, vector);
    }

    /**
      `resonator_stats()` over the cached weights: a ValueError exactly when
      the mesh has no MZI (a size below 2), and otherwise the statistics of
      one weight per MZI.
    */
    method Statistics() returns (r: Result<ResonatorStats>)
      requires Valid()
      ensures r == Stats(physics, resonatorWeights, qFactor, numMzi, probeWavelength)
      ensures r.Success? <==> numMzi >= 1
      ensures r.Success? ==> r.value.numResonators == numMzi && r.value.qFactor == qFactor
    {
      r := Stats(physics, resonatorWeights, qFactor, numMzi, probeWavelength);
    }
  }
}
