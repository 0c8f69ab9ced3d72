# Photonic stacking: a Dafny model of the compute and PCB tool core

This project models, in Dafny, the deterministic core of the Photonic
stacking repository and proves properties of that model. It covers five
parts.

- **The photonic mesh kernel** (`photonic_core.py`, modules `PhotonicCore`,
  `MeshSpec`, `MziIndices`, `SclRandom`). `PhotonicMatrixMultiplier` is a
  class whose arrays (`theta`, `phi`, the resonance wavelengths) are updated
  in place. It covers the C(N,2) MZI index table, the in-place mesh passes,
  `encode_matrix`, the 64-bit congruential generator, the pigeonhole binning
  into ceil(sqrt(N)) bins, the SCL update and the training epochs. Every
  method is proved against value-level functions in `MeshSpec`.
- **The Gerber RS-274X and Excellon parsers** (`gerber_viewer.py`, modules
  `GerberViewer`, `GerberDrill`). These are line-driven state machines over
  a current aperture or tool and a current position.
- **G-code path reconstruction** (`cnc_renderer.py`, module `CncRenderer`).
- **The Gerber to G-code translator** (`gerber_to_cnc.py`, module
  `GerberToCnc`), with its file-name filter.
- **LightCompiler** (`lightcompiler/`, modules `UnifiedIr`, `Photonic20l`,
  `GenericTpuNpu`, `UniversalXpu`). It covers the compute-graph nodes and
  their edges, shape inference, the depth-first ordering, the dispatcher's
  buckets, round-robin layer assignment and instruction emission.

Support modules:

- `Wrappers` holds `Option` and `Result`. A Python exception becomes a
  `Failure` naming its class.
- `Numerics` holds reals, complex numbers and the abstract `Physics`
  kernels.
- `Text` and `Scan` hold the Python string built-ins and the regular
  expressions, rebuilt as deterministic matchers over ASCII.

Modelling conventions:

- Python floats are modelled as mathematical reals.
- cos, sin, exp, sqrt, `np.angle`, `np.abs`, the norm, the RMS and the
  Lorentzian line shape are fields of a `Physics` value. Results are stated
  in terms of those fields.
- Randomness is a parameter: the initial phases and the detuning, one
  permutation per epoch for `np.random.shuffle`, and the values of
  `np.random.randn`.
- File contents are parameters, and files written are modelled as lists of
  lines.
- A file's content is the text Python's text mode hands over, after
  universal-newline translation: `\r\n` and `\r` already read as `\n`
  (cnc_renderer.py:25, gerber_to_cnc.py:41, gerber_viewer.py:41-42).
- Character classes are ASCII: `\d` is 0-9, `\s` and `str.strip()` use the
  ASCII whitespace together with the separators 0x1c-0x1f, and case
  mapping is A-Z to a-z.

## Model

| member | source | states |
|---|---|---|
| PhotonicCore.PropagationLoss | photonic_core.py:33-36 | the loss is non-negative for a non-negative length and loss rate, and equals the dB/cm rate at one centimetre |
| PhotonicCore.PropagationLossAdditive | photonic_core.py:33-36 | the loss of a waveguide is additive in its length |
| PhotonicCore.AggregateBandwidth | photonic_core.py:583-594 | 100 Gb/s per channel: ten times the bandwidth in Tb/s is the channel count |
| PhotonicCore.AggregateBandwidthAdditive | photonic_core.py:583-594 | the aggregate bandwidth is additive over channel counts |
| PhotonicCore.RingResonator.constructor | photonic_core.py:87-100 | a resonator holds the given Q factor, coupling coefficient and resonance wavelength |
| PhotonicCore.RingResonator.AmplitudeWeight | photonic_core.py:130-163 | ZeroDivisionError when Q or the resonance is 0; the loop of `moment_order + 1` binomial terms otherwise yields the clipped kernel average (0 for a negative order) |
| PhotonicCore.FirstOutside | photonic_core.py:321-326 | the first pair in row-major order at which `U[i, j]` is out of range; every earlier pair is in range |
| PhotonicCore.EncodedPhi | photonic_core.py:325 | `clip(abs(U[i, j]), 0, pi/2)` lies in [0, pi/2] |
| PhotonicCore.FirstOutsideAt | photonic_core.py:321-326 | the index where encoding stops is determined by being the first out-of-range pair |
| PhotonicCore.EncodeCompleteIff | photonic_core.py:318-326 | the whole mesh is encoded iff n < 2 or the matrix has at least n-1 rows and n columns |
| PhotonicCore.EncodedUpToStep | photonic_core.py:323-326 | writing pair idx's angle and clamped magnitude extends the encoded prefix by one |
| PhotonicCore.EncodeRow | photonic_core.py:322-326 | one row i of the inner loop encodes the pairs (i, j) in order, or stops with IndexError at the first missing entry |
| PhotonicCore.EncodeLoop | photonic_core.py:320-326 | the nested loops write theta and phi for every pair before the first missing entry, leave the rest as they were, and fail with IndexError iff an entry is missing |
| PhotonicCore.ApplyCoupler | photonic_core.py:339-343 | one MZI step rewrites `state[i]` and `state[j]` from their values before the step |
| PhotonicCore.ApplyWeightedCoupler | photonic_core.py:359-364 | the weighted step scales channels i and j by w, then applies the coupler |
| PhotonicCore.MeshLoop | photonic_core.py:335-344 | the loop equals the reference mesh pass, or raises IndexError iff some pair index is outside the vector |
| PhotonicCore.WeightedLoop | photonic_core.py:354-365 | the weighted loop equals the reference weighted pass, or raises IndexError iff some pair is outside the vector |
| PhotonicCore.PairsAscending | photonic_core.py:256-275 | the index table is strictly ascending in row-major order |
| PhotonicCore.Rephase | photonic_core.py:417-418 | `theta += step; theta %= 2*pi` in place, every new angle in [0, 2*pi) |
| PhotonicCore.Retune | photonic_core.py:421 | `_res_wavelengths += step * 0.01` in place |
| PhotonicCore.Sync | photonic_core.py:423-424 | resonator k's wavelength equals array entry k, for every k |
| PhotonicCore.MakeResonators | photonic_core.py:233-240 | one fresh, distinct resonator per element, with Q = q_factor, coupling 0.08 and the element's wavelength |
| PhotonicCore.PhotonicMatrixMultiplier.constructor | photonic_core.py:199-254 | `__init__`: N(N-1)/2 elements, the given initial phases, wavelengths `probe + detuning`, the index table, the cached weights, the bins and the seed 0xDEADBEEFCAFEBABE |
| PhotonicCore.PhotonicMatrixMultiplier.NextBatch | photonic_core.py:367-377 | `_scl_next_batch(n)` advances the seed exactly n LCG steps and returns the n draws, each in [-0.5, 0.5) |
| PhotonicCore.PhotonicMatrixMultiplier.Multiply | photonic_core.py:330-344 | `multiply` equals the reference pass and keeps the vector's length, changing nothing in the object |
| PhotonicCore.PhotonicMatrixMultiplier.MultiplyResonatorWeighted | photonic_core.py:346-365 | `multiply_resonator_weighted` equals the reference weighted pass and keeps the vector's length, changing nothing in the object |
| PhotonicCore.PhotonicMatrixMultiplier.Statistics | photonic_core.py:491-507 | `resonator_stats` of the cached weights: ValueError exactly when the mesh has no MZI; otherwise the statistics of the weights, numpy's min/mean/max bracketing each other and every weight, with the Q factor and MZI count of the object |
| PhotonicCore.PhotonicMatrixMultiplier.EncodeMatrix | photonic_core.py:311-326 | `encode_matrix` writes the pairs in row-major order up to the first missing entry (IndexError iff there is one) and touches no wavelength |
| PhotonicCore.PhotonicMatrixMultiplier.SclUpdate | photonic_core.py:379-427 | `scl_update` performs exactly the specified step, or fails with ValueError (unbroadcastable shapes) before changing anything |
| PhotonicCore.PhotonicMatrixMultiplier.SclApply | photonic_core.py:405-427 | with broadcastable shapes the update succeeds and returns the RMS of the residual |
| PhotonicCore.PhotonicMatrixMultiplier.ApplySteps | photonic_core.py:416-426 | the phase and wavelength steps, the resonator sync and the weight refresh, keeping the configuration |
| PhotonicCore.PhotonicMatrixMultiplier.TrainSample | photonic_core.py:455-458 | one sample: the weighted pass then the update, or the error either raised |
| PhotonicCore.PhotonicMatrixMultiplier.RunEpoch | photonic_core.py:452-459 | one epoch visits the samples in the given order and sums their RMS, or stops at the first error with the state reached so far |
| PhotonicCore.PhotonicMatrixMultiplier.TrainEpoch | photonic_core.py:452-459 | one pass of the epoch loop extends the specified run by the epoch and appends `epoch_rms / n_samples`; an exception from the epoch, or the division by zero samples, ends the whole run with the state reached |
| PhotonicCore.PhotonicMatrixMultiplier.RunEpochs | photonic_core.py:448-459 | the epoch loop computes exactly the specified run |
| PhotonicCore.PhotonicMatrixMultiplier.TrainScl | photonic_core.py:429-462 | `train_scl` with a permutation per epoch returns the per-epoch mean losses and sets `scl_loss_history` to them, or fails and leaves the history as it was |
| MziIndices.Row | photonic_core.py:267-269 | row i of the table holds n-i-1 pairs |
| MziIndices.NumMzi | photonic_core.py:210 | `size * (size - 1) // 2` is exactly half of n(n-1) |
| MziIndices.Pairs | photonic_core.py:256-270 | the table holds n(n-1)/2 pairs |
| MziIndices.RowsBeforeLength | photonic_core.py:266-269 | the rows before i hold i(2n-i-1)/2 pairs |
| MziIndices.PairsLength | photonic_core.py:256-275 | the table holds exactly `num_mzi = N(N-1)//2` pairs |
| MziIndices.RowsBeforePrefix | photonic_core.py:266-269 | the table grows by appending: earlier rows are a prefix of later ones |
| MziIndices.RowsBeforeInRange | photonic_core.py:266-269 | every pair before row i has i' < j < N and i' < i |
| MziIndices.PairAt | photonic_core.py:266-269 | pair (i, j) sits at index (the number of pairs in the rows before i) + (j - i - 1) |
| MziIndices.PairsMembers | photonic_core.py:256-275 | a pair is in the table iff i < j < N |
| MziIndices.PairsInRange | photonic_core.py:256-275 | every entry satisfies i < j < N |
| MziIndices.RowsBeforeSorted | photonic_core.py:266-269 | the rows before i are in strict row-major order |
| MziIndices.PairsSorted | photonic_core.py:256-275 | the table is strictly row-major ordered and lists each pair once |
| MziIndices.BuildMziIndices | photonic_core.py:256-275 | `_build_mzi_indices` returns `num_mzi` rows and columns that together are the table |
| SclRandom.Next | photonic_core.py:375 | `(A*seed + C) % 2**64` stays below 2**64 |
| SclRandom.Advance | photonic_core.py:373-375 | one or more LCG steps leave the seed below 2**64 |
| SclRandom.Sample | photonic_core.py:376 | `seed / 2**64 - 0.5` lies in [-0.5, 0.5) |
| SclRandom.Draws | photonic_core.py:373-377 | n draws |
| SclRandom.DrawsAt | photonic_core.py:374-376 | draw k comes from the seed after k+1 steps and lies in [-0.5, 0.5) |
| SclRandom.AdvanceAdd | photonic_core.py:375 | a+b steps are a steps then b steps |
| SclRandom.DrawsAppend | photonic_core.py:373-377 | a+b draws are a draws followed by b draws from the advanced seed |
| SclRandom.BatchesAdd | photonic_core.py:410-411 | the seed steps of consecutive updates add up |
| SclRandom.BatchesProduct | photonic_core.py:410-411 | `count` updates take `count * B` steps |
| SclRandom.AdvanceBatches | photonic_core.py:410-411 | one more update advances the seed by B more steps |
| SclRandom.SeedChain | photonic_core.py:410-411 | updates split in two groups advance the seed as all of them together do |
| SclRandom.AdvanceScaled | photonic_core.py:410-411 | x updates then y updates are x+y updates |
| SclRandom.CeilSqrt | photonic_core.py:248 | the least b with b*b >= n |
| SclRandom.SclBins | photonic_core.py:248 | `max(1, ceil(sqrt(num_mzi)))` is at least 1 |
| SclRandom.SclBinsAtMost | photonic_core.py:244-248 | for a non-empty mesh B <= num_mzi and B*B >= num_mzi |
| SclRandom.BinIds | photonic_core.py:250 | element k's bin is `k % B`, below B |
| SclRandom.BinCount | photonic_core.py:250 | a bin holds at most the n elements |
| SclRandom.BinCountBalanced | photonic_core.py:244-250 | pigeonhole: bin b holds `n // B` elements, plus one when b < n % B |
| MeshSpec.Coupler | photonic_core.py:342-343 | a coupler step changes no channel but i and j |
| MeshSpec.Attenuate | photonic_core.py:361-362 | weighting changes no channel but i and j |
| MeshSpec.MeshPass | photonic_core.py:338-344 | the reference pass keeps the vector's length |
| MeshSpec.MeshPassStep | photonic_core.py:338-343 | one more element applies its coupler to the state after the earlier elements |
| MeshSpec.WeightedPass | photonic_core.py:358-365 | the reference weighted pass keeps the vector's length |
| MeshSpec.WeightedPassStep | photonic_core.py:358-364 | one more element applies weighting then its coupler |
| MeshSpec.PairsFit | photonic_core.py:339-341 | every pair fits the vector iff the mesh is empty or N <= its length |
| MeshSpec.MultiplyFailsIff | photonic_core.py:330-365 | both passes raise IndexError iff the mesh is non-empty and the vector is shorter than N |
| MeshSpec.Multiplied | photonic_core.py:330-344 | `multiply` fails only with IndexError, and otherwise keeps the vector's length |
| MeshSpec.WeightedMultiplied | photonic_core.py:346-365 | `multiply_resonator_weighted` fails only with IndexError, and otherwise keeps the vector's length |
| MeshSpec.UnitWeightsPass | photonic_core.py:330-365 | with all weights 1 the weighted pass is the plain pass |
| MeshSpec.ZeroPhasePass | photonic_core.py:336-344 | with all theta 0 (cos 1, sin 0) the plain pass is the identity |
| MeshSpec.CouplerIdentity | photonic_core.py:342-343 | the coupler with c = 1, s = 0 changes nothing |
| MeshSpec.Pow2 | photonic_core.py:293 | `2 ** M` is at least 1 |
| MeshSpec.BinomWeight | photonic_core.py:305 | `comb(M, k) / 2**M` is non-negative |
| MeshSpec.Amplitudes | photonic_core.py:297-303 | one amplitude per moment, M+1 of them |
| MeshSpec.Weight | photonic_core.py:290-307 | a resonator's weight lies in [0, 1] |
| MeshSpec.ResonatorWeights | photonic_core.py:277-307 | one weight per resonator, each in [0, 1] |
| MeshSpec.ResonatorWeightsIgnorePhi | photonic_core.py:277-307 | the weights depend on Q, the probe and the wavelengths only |
| MeshSpec.BinomBeyond | photonic_core.py:305 | `comb(M, k)` is 0 for k > M |
| MeshSpec.BinomPrefixPascal | photonic_core.py:305 | Pascal's rule on prefix sums of a binomial row |
| MeshSpec.BinomRowSum | photonic_core.py:293-305 | a row of binomials sums to `2**M`, so the kernel weights sum to 1 |
| MeshSpec.KernelSumBounds | photonic_core.py:305-306 | a kernel average of amplitudes in [0, 1] lies between 0 and the kernel mass used |
| MeshSpec.WeightUnclipped | photonic_core.py:306-307 | with amplitudes in [0, 1] the clip changes nothing |
| MeshSpec.AmplitudesInUnit | photonic_core.py:302-303 | amplitudes in [0, 1] moment by moment make a sequence in [0, 1] |
| MeshSpec.KernelSumInUnit | photonic_core.py:305-306 | the full binomial average of amplitudes in [0, 1] lies in [0, 1] |
| MeshSpec.Residual | photonic_core.py:405 | numpy broadcasting: a residual exists iff the lengths agree or one is 1, with the broadcast length |
| MeshSpec.Rms | photonic_core.py:406 | the RMS of an empty residual is numpy's nan |
| MeshSpec.Kick | photonic_core.py:415 | a zero rate, draw or norm gives no step; with a positive rate and norm the step is positive exactly when the draw is |
| MeshSpec.Steps | photonic_core.py:413-416 | one step per element |
| MeshSpec.Rephased | photonic_core.py:417-418 | every new angle lies in [0, 2*pi) |
| MeshSpec.Retuned | photonic_core.py:421 | the wavelength array keeps its length |
| MeshSpec.SclStep | photonic_core.py:379-427 | ValueError iff the shapes do not broadcast; otherwise the sizes are kept and the seed advances exactly B steps |
| MeshSpec.SclStepEffect | photonic_core.py:410-426 | element k gets `theta[k] = (theta[k] + lr * deltas[k % B] * norm) mod 2*pi` in [0, 2*pi), its wavelength moves by 0.01 of that step, and the RMS is returned |
| MeshSpec.SampleStep | photonic_core.py:455-457 | a sample's step keeps the sizes and advances the seed B steps |
| MeshSpec.PermutationCovers | photonic_core.py:450-455 | a shuffled order visits exactly the sample indices |
| MeshSpec.Indices | photonic_core.py:450 | `range(n)` as a set has n members |
| MeshSpec.DistinctImageSize | photonic_core.py:450-455 | n distinct indices make a set of size n |
| MeshSpec.PermutationInRange | photonic_core.py:450-455 | a permutation only holds valid sample indices |
| MeshSpec.EpochNext | photonic_core.py:455-458 | one step of the sample loop keeps the sizes |
| MeshSpec.Epoch | photonic_core.py:452-458 | an epoch keeps the sizes |
| MeshSpec.TrainNext | photonic_core.py:452-459 | one epoch of the outer loop keeps the sizes |
| MeshSpec.Train | photonic_core.py:448-462 | training keeps the sizes |
| MeshSpec.EpochUnfold | photonic_core.py:455-458 | the epoch after t+1 samples is one sample step after the epoch after t |
| MeshSpec.TrainUnfold | photonic_core.py:452-459 | training for e+1 epochs is one epoch after training for e |
| MeshSpec.EpochStep | photonic_core.py:455-458 | a successful sample adds its RMS to the epoch's running sum |
| MeshSpec.TrainStep | photonic_core.py:452-459 | a successful epoch appends `epoch_rms / n_samples` to the history |
| MeshSpec.EpochFails | photonic_core.py:455-458 | the first failing sample ends the epoch with its error |
| MeshSpec.TrainFails | photonic_core.py:452-459 | the first failing epoch ends training with its error |
| MeshSpec.EpochHaltedStays | photonic_core.py:455-458 | after an error the remaining samples change nothing |
| MeshSpec.TrainHaltedStays | photonic_core.py:452-459 | after an error the remaining epochs change nothing |
| MeshSpec.TrainLength | photonic_core.py:459-462 | the returned history has one entry per epoch |
| MeshSpec.EpochSeed | photonic_core.py:452-458 | an epoch advances the seed exactly B steps per sample |
| MeshSpec.SamplesVisitedUniform | photonic_core.py:452-455 | e epochs over n samples visit e*n samples |
| MeshSpec.TrainSeed | photonic_core.py:448-462 | training advances the seed B steps per sample visited |
| MeshSpec.TrainSeedStep | photonic_core.py:452-459 | the seed claim carries over one more epoch |
| MeshSpec.NoIndexBelowZero | photonic_core.py:450-455 | with no samples an epoch visits nothing |
| MeshSpec.InRangeFirst | photonic_core.py:455 | the first index of a valid order is a valid sample |
| MeshSpec.NoSamplesDivides | photonic_core.py:459 | with no samples and at least one epoch, `epoch_rms / n_samples` raises ZeroDivisionError before anything changes |
| MeshSpec.Min | photonic_core.py:502 | `np.min` is a member and at most every weight |
| MeshSpec.Max | photonic_core.py:503 | `np.max` is a member and at least every weight |
| MeshSpec.SumBounds | photonic_core.py:500 | a sum of values in [lo, hi] lies in [n*lo, n*hi] |
| MeshSpec.MeanBounds | photonic_core.py:500-503 | the mean lies between the minimum and the maximum |
| MeshSpec.MeanBetween | photonic_core.py:500 | the mean of values in [lo, hi] lies in [lo, hi] |
| MeshSpec.Stats | photonic_core.py:491-507 | `resonator_stats` fails iff there is no resonator; otherwise min <= mean <= max, every weight between min and max, and the Q factor and count reported |
| CncRenderer.SearchGroup | cnc_renderer.py:31-32 | `re.search(r'X([\d\.-]+)', line)` (and the Y pattern) from a position: nothing iff no later position matches; otherwise the group at the leftmost matching position, non-empty and made of digits, `.` and `-` only |
| CncRenderer.SearchGroupAbsent | cnc_renderer.py:31-32 | a line without the axis letter has no match for that axis |
| CncRenderer.NewCoord | cnc_renderer.py:34-35 | no match keeps the current coordinate; a match gives `float()` of the group, or ValueError exactly when `float()` rejects it |
| CncRenderer.Rapid | cnc_renderer.py:37-44 | G00 closes a non-empty open path onto the path list, leaves no open path and moves to the new position without drawing |
| CncRenderer.Cut | cnc_renderer.py:46-53 | G01 seeds an empty open path with the current position, appends the new point and moves there; the closed paths are untouched |
| CncRenderer.Step | cnc_renderer.py:26-53 | one line of the loop can only fail with ValueError, and only when it is non-empty |
| CncRenderer.StepsUnfold | cnc_renderer.py:25-53 | the loop over lines: the state after line i+1 is one step from the state after line i, unless an earlier line raised |
| CncRenderer.StepsStop | cnc_renderer.py:25-53 | once a line has raised, the later lines do not matter |
| CncRenderer.Steps | cnc_renderer.py:25-53 | the loop over the lines can only stop with ValueError |
| CncRenderer.Clean | cnc_renderer.py:26 | `line.strip().upper()` is never longer than the line |
| CncRenderer.Finish | cnc_renderer.py:55-59 | a non-empty trailing path is appended to the result, an empty one is not |
| CncRenderer.ParseSpec | cnc_renderer.py:12-59 | `parse_gcode` fails only with ValueError, and only when the loop over the lines failed |
| CncRenderer.StartWellFormed | cnc_renderer.py:14-17 | the start state (origin, no paths) satisfies the path invariant |
| CncRenderer.StepWellFormed | cnc_renderer.py:37-53 | every step keeps the invariant: closed paths have two or more points, an open path has two or more and ends at the current position |
| CncRenderer.StepsWellFormed | cnc_renderer.py:24-53 | the whole loop keeps the path invariant |
| CncRenderer.PathsHaveTwoPoints | cnc_renderer.py:46-59 | every path `parse_gcode` returns has at least two points |
| CncRenderer.InertLine | cnc_renderer.py:37-53 | a line holding neither G00 nor G01 leaves the state as it was, or raises ValueError, exactly when it is non-empty and `float()` rejects its X or Y group |
| CncRenderer.RapidLine | cnc_renderer.py:37-44 | a line holding G00 closes the open path and moves to the new coordinates without drawing, or raises ValueError when a coordinate does not convert |
| CncRenderer.CutLine | cnc_renderer.py:46-53 | a line holding G01 and not G00 extends the cut path to the new coordinates, or raises ValueError when a coordinate does not convert |
| CncRenderer.BareRapid | cnc_renderer.py:37-44 | every G00 line without X or Y, whatever else it holds, only closes the open path, in place |
| CncRenderer.ParseGcode | cnc_renderer.py:12-59 | the parser's loop returns exactly the paths of the specification (or its ValueError) |
| CncRenderer.RunLines | cnc_renderer.py:24-53 | the loop over the lines reaches the specified state, or reports the ValueError that stopped it |
| CncRenderer.ParseLine | cnc_renderer.py:26-53 | the loop body for one line computes exactly the specified step |
| GerberToCnc.ParseCoordinateOfInt | gerber_to_cnc.py:11-16 | an integer string is read as that integer divided by 1000000 |
| GerberToCnc.ParseCoordinateOfDecimal | gerber_to_cnc.py:14-18 | every text holding a `.` (a decimal such as `1.5`) and every text of whitespace only reads as 0.0 |
| GerberToCnc.ParseCoordinateOfDigits | gerber_to_cnc.py:11-16 | a digit group, as the move regex captures it, is read as its decimal value divided by 1000000 |
| GerberToCnc.ParseCoordinate | gerber_to_cnc.py:11-18 | 0.0 when `int()` raises ValueError; otherwise the value in millionths of an inch: the result times 10^6 is the integer read |
| GerberToCnc.CoordValue | gerber_to_cnc.py:57 | the `{x_val:.6f}` text of a captured digit group reads back as the coordinate |
| GerberToCnc.Coord | gerber_to_cnc.py:57 | `f"{x_val:.6f}"` of a captured group always holds a decimal point |
| GerberToCnc.MoveAt | gerber_to_cnc.py:37 | a match of `X(\d+)Y(\d+)D(\d+)` at a position has three non-empty digit groups |
| GerberToCnc.MoveAfterX | gerber_to_cnc.py:37 | the match continued after the X group keeps that group as its x |
| GerberToCnc.SearchMove | gerber_to_cnc.py:47 | `coord_pattern.search(line)` from a position: nothing iff no later position matches; otherwise the match at the leftmost matching position, with three digit groups |
| GerberToCnc.MoveCode | gerber_to_cnc.py:53-65 | a match emits one line exactly when its D code is `02` or `01`, and none otherwise |
| GerberToCnc.Emit | gerber_to_cnc.py:42-65 | a stripped input line emits at most one output line |
| GerberToCnc.MovesUnfold | gerber_to_cnc.py:41-65 | the loop: the output after line i+1 is the output after line i plus what line i emits |
| GerberToCnc.Moves | gerber_to_cnc.py:41-65 | the loop emits at most one line per input line |
| GerberToCnc.Header | gerber_to_cnc.py:26-33 | seven header lines, opening with `%`, the second naming the input file |
| GerberToCnc.ConvertSpec | gerber_to_cnc.py:25-70 | the output file opens with the seven header lines and closes with the three footer lines |
| GerberToCnc.JoinPath | gerber_to_cnc.py:21-23 | `os.path.join(a, b)` on POSIX: b itself when b is absolute; `a + b` when a is empty or ends with `/`; `a + "/" + b` otherwise; in every case it ends with b |
| GerberToCnc.OutputPath | gerber_to_cnc.py:22-23 | the output path ends with the input name plus `.nc` |
| GerberToCnc.MovesShape | gerber_to_cnc.py:41-65 | the moves are no more than the input lines, and each is a G00 or G01 line |
| GerberToCnc.EmitShape | gerber_to_cnc.py:53-65 | a single line emits only G00 or G01 lines |
| GerberToCnc.ConvertShape | gerber_to_cnc.py:25-70 | the output file is the seven header lines, then the moves in input order, then the footer `M05` / `M30` / `%` |
| GerberToCnc.MoveTextLayout | gerber_to_cnc.py:36-37 | a line written `X<x>Y<y>D<d>*...` has the layout the regex reads |
| GerberToCnc.MoveLayoutEnds | gerber_to_cnc.py:37 | in such a line each `\d+` group ends where the next letter starts |
| GerberToCnc.MoveOfLayout | gerber_to_cnc.py:47-49 | the search finds exactly the groups the line was written with |
| GerberToCnc.TranslateLine | gerber_to_cnc.py:47-65 | a written move line emits `G00 X.. Y..` for D02, `G01 X.. Y.. F10.0` for D01 and nothing for other codes |
| GerberToCnc.RFind | gerber_to_cnc.py:80 | the last position of a character, as `splitext` looks for the last dot |
| GerberToCnc.RFindLast | gerber_to_cnc.py:80 | no later occurrence follows the position found; none found means none present |
| GerberToCnc.RFindOfLast | gerber_to_cnc.py:80 | the last occurrence is the one found |
| GerberToCnc.ExtShape | gerber_to_cnc.py:80 | `os.path.splitext(name)[1]` is empty or a dot followed by no dot and no slash, and ends the name |
| GerberToCnc.Ext | gerber_to_cnc.py:80 | `os.path.splitext(name)[1]` is empty or a suffix of the name that starts with `.` |
| GerberToCnc.LayerFile | gerber_to_cnc.py:80-82 | a name passes the extension test only with an extension of three or more characters led by `.` |
| GerberToCnc.Converted | gerber_to_cnc.py:80-89 | a converted name has such an extension and is not `readme.txt` |
| GerberToCnc.Selected | gerber_to_cnc.py:78-89 | the kept names, in directory order, are no more than the names |
| GerberToCnc.SelectedKept | gerber_to_cnc.py:78-89 | every selected name passes the filter and is one of the names |
| GerberToCnc.KeptSelected | gerber_to_cnc.py:78-92 | every name that passes the filter is selected, at the position after the names kept before it |
| GerberToCnc.Generated | gerber_to_cnc.py:77-94 | one output path per kept name |
| GerberToCnc.GeneratedPaths | gerber_to_cnc.py:91-92 | the i-th returned path is the output path of the i-th kept name |
| GerberToCnc.Jobs | gerber_to_cnc.py:78-92 | one conversion per kept name |
| GerberToCnc.JobsOfSelected | gerber_to_cnc.py:91 | the i-th conversion is of the i-th kept name |
| GerberToCnc.JobOfName | gerber_to_cnc.py:78-92 | a name that passes the filter is converted with its own content |
| GerberToCnc.GeneratedUnfold | gerber_to_cnc.py:78-92 | the loop over names adds an output path exactly for a kept name |
| GerberToCnc.JobsUnfold | gerber_to_cnc.py:78-92 | the loop over names adds a conversion exactly for a kept name |
| GerberToCnc.ReadmeIsNoLayer | gerber_to_cnc.py:80-89 | `readme.txt`, in any case, is never converted (its extension is not a layer extension) |
| GerberToCnc.NumberedLayerConverted | gerber_to_cnc.py:80-82 | every name whose extension is `.g` or `.G` followed by a digit (such as `.G12`) is converted, because the extension is lower-cased before the test |
| GerberToCnc.ConvertFile | gerber_to_cnc.py:20-73 | `convert_file` returns the output path and writes exactly the specified output lines |
| GerberToCnc.TranslateLines | gerber_to_cnc.py:41-65 | the loop over the input lines emits exactly the specified moves |
| GerberToCnc.ConvertLine | gerber_to_cnc.py:42-65 | the loop body emits exactly what the specification says for one line |
| GerberToCnc.ConvertAll | gerber_to_cnc.py:75-94 | `convert_all` returns the specified output paths and writes each kept file's conversion, in directory order |
| GerberToCnc.ConvertNamed | gerber_to_cnc.py:78-92 | one pass of the loop over names with the source's filter |
| GerberToCnc.ConvertNext | gerber_to_cnc.py:78-92 | one pass of the loop over names extends the returned paths and the written files by what that name adds |
| GerberToCnc.WrittenForAppend | gerber_to_cnc.py:91-92 | converting one more file extends the written outputs by its conversion |
| GerberToCnc.IsConverted | gerber_to_cnc.py:80-89 | the filter decides exactly the specified extension test |
| GerberViewer.ParseCoordinate | gerber_viewer.py:112-116 | a coordinate is `int(s) / 10^format_spec[1] * unit_scale`, and ValueError exactly when `int()` rejects the text |
| GerberViewer.ParseCoordinateOfInt | gerber_viewer.py:112-116 | the text of an integer v reads as `v / 10^decimals * unit_scale` |
| GerberViewer.SearchFormat | gerber_viewer.py:45 | `re.search(r'%FSLAX(\d)(\d)Y(\d)(\d)\*%', content)` from a position: nothing iff no later position matches; otherwise the format at the leftmost matching position |
| GerberViewer.Header | gerber_viewer.py:44-53 | the unit scale is 25.4 exactly when `%MOIN*%` occurs and 1.0 otherwise; the format is the one found, else the previous one; nothing else changes |
| GerberViewer.FormatOfText | gerber_viewer.py:45-47 | a written format statement `%FSLAXabYcd*%` gives the format (a, b) |
| GerberViewer.ApertureAt | gerber_viewer.py:56-57 | `%ADD(\d+)([CR]),([0-9.]+)(?:X([0-9.]+))?\*%` matched at a position: the groups have the classes of the pattern, and the text from that position is laid out as `%ADD<code><shape>,<s1>[X<s2>]*%`, ending inside the text |
| GerberViewer.ApertureOfText | gerber_viewer.py:56-57 | a written definition `%ADD<code><shape>,<s1>[X<s2>]*%` with groups of those classes is read back with exactly its groups |
| GerberViewer.LayoutText | gerber_viewer.py:56 | a match's span is exactly the text of the definition it reads |
| GerberViewer.ApertureDefs | gerber_viewer.py:57 | `re.finditer` yields matches that each end after the start position and inside the text |
| GerberViewer.ApertureDefsFacts | gerber_viewer.py:56-57 | every match `finditer` yields has the groups of the pattern, and the matches come in strictly increasing text order |
| GerberViewer.ApertureOf | gerber_viewer.py:58-66 | a definition converts exactly when its code and sizes convert (ValueError otherwise); a circle stores `[s1]`, a rectangle `[s1, s2]` with `s2 = s1` when X is absent, both scaled by the unit |
| GerberViewer.DefineAll | gerber_viewer.py:57-66 | defining apertures keeps every existing code, keeps every aperture sized and stored under its own code |
| GerberViewer.DefineOne | gerber_viewer.py:58-66 | one definition keeps the same three facts |
| GerberViewer.Insert | gerber_viewer.py:64-66 | storing a sized aperture under its code keeps the same three facts |
| GerberViewer.DefineAllUnfold | gerber_viewer.py:57-66 | the `finditer` loop: one more definition is applied to the table so far, unless a conversion already raised |
| GerberViewer.DefineAllStops | gerber_viewer.py:57-66 | once a conversion has raised, the later definitions are not applied |
| GerberViewer.SelectedCode | gerber_viewer.py:74-80 | a selected aperture code is at least 10 |
| GerberViewer.CommandAt | gerber_viewer.py:83 | `re.match(r'X(-?\d+)Y(-?\d+)D(\d+)\*', line)`: the groups are signed digits, signed digits and digits, and the line starts with X |
| GerberViewer.CommandAfterX | gerber_viewer.py:83 | the match continued after the X group keeps that group |
| GerberViewer.CommandAfterY | gerber_viewer.py:83 | the match continued after the Y group keeps both groups |
| GerberViewer.MoveStep | gerber_viewer.py:89-108 | a command moves the current position to (x, y), adds at most one element, with the selected aperture, only when one is selected; a flash starts where it ends |
| GerberViewer.LineStep | gerber_viewer.py:70-108 | one line keeps apertures, units and format, and adds at most one element after the existing ones |
| GerberViewer.Lines | gerber_viewer.py:69-108 | the drawing loop adds at most one element per line after the existing ones and changes no aperture, unit or format |
| GerberViewer.LinesUnfold | gerber_viewer.py:70-71 | the loop: the state after line i+1 is one step from the state after line i |
| GerberViewer.ApertureFor | gerber_viewer.py:124-134 | the aperture of an element, or the default circle of size [0.2]: it always has a size |
| GerberViewer.VisualizeCounts | gerber_viewer.py:118-157 | the number of lines plus the number of pads equals the number of elements |
| GerberViewer.LinesOf | gerber_viewer.py:136-143 | at most one line entry per element |
| GerberViewer.PadsOf | gerber_viewer.py:144-150 | at most one pad entry per element |
| GerberViewer.Visualize | gerber_viewer.py:118-157 | the lines and the pads together are as many as the elements; the aperture map has exactly the parser's codes, each with its shape and its size |
| GerberViewer.UndefinedAperturePad | gerber_viewer.py:124-150 | a flash with an undefined aperture becomes a circle pad of size [0.2] at its position |
| GerberViewer.InitialWellFormed | gerber_viewer.py:31-37 | the constructed parser satisfies the invariant |
| GerberViewer.LineStepWellFormed | gerber_viewer.py:70-108 | one line keeps the invariant: apertures sized and under their own code, a selected code of at least 10, elements drawn with such a code, flashes starting where they end |
| GerberViewer.LinesWellFormed | gerber_viewer.py:69-108 | the drawing loop keeps the invariant |
| GerberViewer.ParseFileWellFormed | gerber_viewer.py:39-110 | `parse_file` keeps the invariant |
| GerberViewer.ParseFileSpec | gerber_viewer.py:39-110 | `parse_file`: a ValueError adds no element; success returns the visualisation data of the final state; the unit scale and the format are those the header sets |
| GerberViewer.SelectLine | gerber_viewer.py:74-80 | `Dnn*` with nn at least 10 selects aperture nn; a code below 10 changes nothing |
| GerberViewer.SelectedCodeOf | gerber_viewer.py:74-78 | `Dnn*` is read as a selection of nn exactly when nn is at least 10 |
| GerberViewer.SelectStep | gerber_viewer.py:73-80 | the selection block changes nothing but the selected aperture, and changes it only to the code the line selects |
| GerberViewer.CommandOfText | gerber_viewer.py:83 | a written command `X<x>Y<y>D<d>*...` matches with exactly those groups |
| GerberViewer.CommandTextLayout | gerber_viewer.py:83 | such a line has the layout the pattern reads |
| GerberViewer.CommandOfLayout | gerber_viewer.py:83 | a line with that layout matches with its own groups |
| GerberViewer.LayoutEnds | gerber_viewer.py:83 | in such a line every group ends where the next letter starts |
| GerberViewer.CommandAtOfEnds | gerber_viewer.py:83 | a match is determined by where its groups end |
| GerberViewer.CommandLine | gerber_viewer.py:83-108 | a command line moves to the converted point and appends a line for D01 or a flash for D03 when an aperture is selected, and nothing else |
| GerberViewer.CommandStep | gerber_viewer.py:84-108 | a matched command's groups always convert (no ValueError is possible), and the current position becomes the converted point |
| GerberViewer.OtherLine | gerber_viewer.py:70-108 | a line that is neither a selection nor a command changes nothing |
| GerberViewer.GerberParser.constructor | gerber_viewer.py:31-37 | a new parser has no apertures, no elements, no selection, position (0, 0), unit scale 1 and format (3, 6) |
| GerberViewer.GerberParser.ParseFile | gerber_viewer.py:39-110 | `parse_file` leaves the parser in the specified state and returns the specified data or ValueError |
| GerberViewer.GerberParser.DefineApertures | gerber_viewer.py:55-66 | the aperture loop changes only the aperture table, as specified |
| GerberViewer.GerberParser.DrawLines | gerber_viewer.py:69-108 | the drawing loop reaches the specified state |
| GerberViewer.GerberParser.ProcessLine | gerber_viewer.py:71-108 | the loop body for one line makes the specified step |
| GerberViewer.GerberParser.Draw | gerber_viewer.py:84-108 | a matched command makes the specified step |
| GerberViewer.GerberParser.Move | gerber_viewer.py:89-108 | a D code makes the specified step |
| GerberViewer.GerberParser.GenerateVisualizationData | gerber_viewer.py:118-157 | `_generate_visualization_data` returns the specified lines, pads and apertures |
| GerberDrill.ToolDefAt | gerber_viewer.py:170 | `re.match(r'T(\d+)C([0-9.]+)', line)`: the number is digits, the diameter digits and dots, and the line starts with T and holds a C |
| GerberDrill.HoleAt | gerber_viewer.py:184 | `re.match(r'X(-?[0-9.]+)Y(-?[0-9.]+)', line)` only matches a line starting with X |
| GerberDrill.HoleAtGroups | gerber_viewer.py:184 | a match has two groups of an optional `-` then digits and dots, the line opens with `X<x>Y<y>`, and the y group is as long as it can be |
| GerberDrill.HoleOfText | gerber_viewer.py:184 | a line written `X<x>Y<y>` with such groups, and no digit or dot after them, matches with exactly those groups |
| GerberDrill.ToolDefStep | gerber_viewer.py:169-174 | a tool definition stores `float(d) * 25.4` under its number, raises ValueError when `float()` rejects d, and does nothing on other lines |
| GerberDrill.ToolSelectStep | gerber_viewer.py:176-181 | the current tool changes only on a line starting with T, holding no C, whose rest `int()` accepts, and then to that number |
| GerberDrill.HoleStep | gerber_viewer.py:183-192 | a hole is appended only after a truthy tool is selected, with the tool's diameter or 0.3 when the tool is undefined; otherwise nothing changes |
| GerberDrill.LineStep | gerber_viewer.py:167-192 | one line fails only with ValueError, and otherwise adds at most one hole after the existing ones |
| GerberDrill.LinesAppendHoles | gerber_viewer.py:166-192 | the loop adds at most one hole per line, after the existing ones |
| GerberDrill.LinesUnfold | gerber_viewer.py:166-167 | the loop: the state after line i+1 is one step from the state after line i, unless an earlier line raised |
| GerberDrill.LinesStop | gerber_viewer.py:166-192 | once a line has raised, the later lines do not matter |
| GerberDrill.Lines | gerber_viewer.py:166-192 | the loop over the lines only stops with ValueError |
| GerberDrill.FloatOfUnsigned | gerber_viewer.py:173 | a diameter of digits and dots reads as a non-negative number |
| GerberDrill.LineStepWellFormed | gerber_viewer.py:167-192 | every line keeps all tool and hole diameters non-negative |
| GerberDrill.LinesWellFormed | gerber_viewer.py:166-192 | the loop keeps all diameters non-negative |
| GerberDrill.ToolSelectLine | gerber_viewer.py:176-181 | a line `T<n>` selects tool n and changes nothing else |
| GerberDrill.NoToolDef | gerber_viewer.py:170 | a line without C defines no tool |
| GerberDrill.ToolDefLine | gerber_viewer.py:169-181 | a line `T<n>C<d>` stores `float(d) * 25.4` for tool n (or raises ValueError) and selects nothing |
| GerberDrill.ToolDefLineStep | gerber_viewer.py:169-181 | any line whose tool pattern matches stores that tool and does nothing else |
| GerberDrill.ToolDefOfText | gerber_viewer.py:170 | the pattern reads a written `T<n>C<d>` line with exactly those groups |
| GerberDrill.ToolDefOfLayout | gerber_viewer.py:170 | a line with that layout matches with its own groups |
| GerberDrill.HoleAfterSelect | gerber_viewer.py:183-192 | after a selection of tool n, a coordinate line appends one hole with the tool's diameter, or 0.3 for an undefined tool |
| GerberDrill.ParseDrillFile | gerber_viewer.py:159-194 | `parse_drill_file` returns exactly the specified holes and tools, or ValueError |
| GerberDrill.ParseDrillSpec | gerber_viewer.py:159-194 | `parse_drill_file` only raises ValueError |
| GerberDrill.ParseLines | gerber_viewer.py:166-192 | the loop over lines reaches the specified state, or reports the ValueError that stopped it |
| GerberDrill.ParseDrillWellFormed | gerber_viewer.py:159-194 | every returned tool and hole diameter is non-negative |
| GerberDrill.ParseLine | gerber_viewer.py:167-192 | the loop body for one line computes exactly the specified step |
| UnifiedIr.OpType | lightcompiler/unified_ir.py:39-62 | exactly the operation nodes (generic, `matmul`, `add`) carry an `op_type` |
| UnifiedIr.MatMuls | lightcompiler/unified_ir.py:45-54 | the `MatMulNode`s of a list, in order |
| UnifiedIr.MatMulsAppend | lightcompiler/unified_ir.py:45-54 | the matrix products of a concatenation are those of each part, in order |
| UnifiedIr.UcgNode.constructor | lightcompiler/unified_ir.py:11-17 | a new node has the given name, no edges and empty metadata |
| UnifiedIr.UcgNode.InputNode | lightcompiler/unified_ir.py:26-30 | an input node has the given shape and no edges |
| UnifiedIr.UcgNode.ConstantNode | lightcompiler/unified_ir.py:32-37 | a constant's shape is its value's shape |
| UnifiedIr.UcgNode.AddInput | lightcompiler/unified_ir.py:19-21 | `add_input` appends the producer to `inputs` and this node to the producer's `consumers`, keeping inputs and consumers symmetric |
| UnifiedIr.SymmetricAddIsolated | lightcompiler/unified_ir.py:11-17 | a node without edges keeps the graph symmetric |
| UnifiedIr.Link | lightcompiler/unified_ir.py:47-50 | the two `add_input` calls of a binary node give it inputs [a, b] and append it once to each producer's consumers (twice when a is b) |
| UnifiedIr.MatMulShape | lightcompiler/unified_ir.py:52-54 | IndexError is the only failure; a shape it sets is two-dimensional, `(a.shape[0], b.shape[1])`, and only when both operands have dimensions and b has two |
| UnifiedIr.MatMulShapeOfMatrices | lightcompiler/unified_ir.py:52-54 | (M, N) @ (N', K) has shape (M, K) |
| UnifiedIr.MatMulShapeCases | lightcompiler/unified_ir.py:53-54 | no shape when either operand's shape is unset or empty; IndexError when the right one has one dimension; otherwise `(a.shape[0], b.shape[1])` |
| UnifiedIr.NewMatMul | lightcompiler/unified_ir.py:45-54 | `MatMulNode(name, a, b)`: linked to a and b, with the inferred shape or the IndexError raised after the links exist |
| UnifiedIr.NewAdd | lightcompiler/unified_ir.py:56-62 | `AddNode(name, a, b)`: linked to a and b, with shape `a.shape` |
| UnifiedIr.ReachesRefl | lightcompiler/unified_ir.py:78-83 | a node reaches itself |
| UnifiedIr.ReachesEdge | lightcompiler/unified_ir.py:81-82 | reachability extends along a consumer edge |
| UnifiedIr.ReachesPrepend | lightcompiler/unified_ir.py:81-82 | a consumer edge followed by a path is a path |
| UnifiedIr.ReachInside | lightcompiler/unified_ir.py:78-83 | a set closed under consumers holds everything its nodes reach |
| UnifiedIr.ReachesSink | lightcompiler/unified_ir.py:78-83 | a node with no consumers reaches only itself |
| UnifiedIr.PlacedPrepend | lightcompiler/unified_ir.py:83 | prepending a block whose consumers come after it keeps every node before its consumers |
| UnifiedIr.NoDuplicatesAppend | lightcompiler/unified_ir.py:79-83 | joining disjoint duplicate-free lists leaves no duplicate |
| UnifiedIr.LeftShrinks | lightcompiler/unified_ir.py:79-80 | marking a new node visited shrinks the unvisited part, so the DFS terminates |
| UnifiedIr.Visit | lightcompiler/unified_ir.py:78-83 | `visit(n)`: when n is new, it pushes exactly the newly reached nodes, once each, with n in front and every node before its consumers; a visited n changes nothing |
| UnifiedIr.VisitSeen | lightcompiler/unified_ir.py:79 | visiting a visited node changes nothing |
| UnifiedIr.CoveredStep | lightcompiler/unified_ir.py:81-82 | after one more consumer, all consumers so far are visited |
| UnifiedIr.ProgressStart | lightcompiler/unified_ir.py:80 | the visit starts by marking n visited |
| UnifiedIr.ProgressShrinks | lightcompiler/unified_ir.py:80 | the consumer recursion runs on a smaller unvisited set |
| UnifiedIr.VisitConsumer | lightcompiler/unified_ir.py:81-82 | one consumer's visit keeps the visit's invariant and marks that consumer visited |
| UnifiedIr.ConsumerEntry | lightcompiler/unified_ir.py:81-82 | a consumer's visit may start: all visited nodes are stacked or reach it |
| UnifiedIr.ProgressStep | lightcompiler/unified_ir.py:81-82 | a consumer's result extends the visit's progress |
| UnifiedIr.VisitDone | lightcompiler/unified_ir.py:81-83 | once all consumers are visited, `stack.insert(0, n)` completes the visit |
| UnifiedIr.PlacedHead | lightcompiler/unified_ir.py:83 | n, inserted after all its consumers, precedes them |
| UnifiedIr.Reverse | lightcompiler/unified_ir.py:90 | `stack[::-1]`: element i is element `len - 1 - i` |
| UnifiedIr.RootsStart | lightcompiler/unified_ir.py:75-76 | an empty visited set and stack start the root loop |
| UnifiedIr.RootEntry | lightcompiler/unified_ir.py:86-88 | each root's visit may start |
| UnifiedIr.RootStep | lightcompiler/unified_ir.py:86-88 | visiting a root extends the loop's invariant |
| UnifiedIr.RootSkip | lightcompiler/unified_ir.py:87 | a node with inputs is not a root and is skipped |
| UnifiedIr.RootsEnd | lightcompiler/unified_ir.py:86-90 | after the loop the stack holds each node reachable from a root once and nothing else, producers before consumers |
| UnifiedIr.ComputeGraph.constructor | lightcompiler/unified_ir.py:66-67 | a new graph has no nodes |
| UnifiedIr.ComputeGraph.AddNode | lightcompiler/unified_ir.py:69-71 | `add_node` appends the node and returns it |
| UnifiedIr.ComputeGraph.ForwardOrder | lightcompiler/unified_ir.py:73-88 | the stack before the reversal: every node reachable from a node without inputs once, each before its consumers |
| UnifiedIr.ComputeGraph.TopoSort | lightcompiler/unified_ir.py:73-90 | `get_topo_sort` returns those nodes once each, with every node after its consumers |
| UnifiedIr.ReverseMultiset | lightcompiler/unified_ir.py:90 | the reversal keeps the nodes |
| UnifiedIr.ReversePlaced | lightcompiler/unified_ir.py:90 | reversing a producers-first list puts consumers first |
| UnifiedIr.ForwardOrderAcyclic | lightcompiler/unified_ir.py:73-88 | in an acyclic graph every consumer comes after its producer in the stack |
| UnifiedIr.TopoSortAcyclic | lightcompiler/unified_ir.py:73-90 | in an acyclic graph every consumer comes before its producer in the returned list |
| UnifiedIr.TopoSortOfMatMul | lightcompiler/unified_ir.py:73-90 | for X, W and Y = X @ W the returned order starts with Y |
| UnifiedIr.MatMulGraph | lightcompiler/unified_ir.py:19-71 | building X (128 x 128), constant W and Y = X @ W gives the expected edges and shape (128, 128) |
| UnifiedIr.MatMulGraphClosed | lightcompiler/unified_ir.py:78-83 | that graph is closed under consumers |
| UnifiedIr.MatMulFromRoot | lightcompiler/unified_ir.py:86-88 | in that graph the nodes reached from roots are X, W and Y |
| UnifiedIr.MatMulOrder | lightcompiler/unified_ir.py:86-90 | any consumers-first order of those nodes starts with Y |
| Photonic20l.Range | lightcompiler/backends/photonic_20l.py:11-13 | `list(range(lo, hi))` |
| Photonic20l.EmptyConfigs | lightcompiler/backends/photonic_20l.py:17 | one empty theta/phi/wdm configuration per intelligence layer and no other key |
| Photonic20l.Eye | lightcompiler/backends/photonic_20l.py:47 | `np.eye(n)` has shape (n, n), with 1 at flat index k exactly when k lies on the diagonal and 0 elsewhere |
| Photonic20l.EyeEntry | lightcompiler/backends/photonic_20l.py:47 | entry (i, j) of `np.eye(n)` is 1 when i == j and 0 otherwise |
| Photonic20l.AsComplex | lightcompiler/backends/photonic_20l.py:56-57 | real weights as complex numbers with zero imaginary part |
| Photonic20l.FirstConstant | lightcompiler/backends/photonic_20l.py:39-43 | the value of the first `ConstantNode` input, or nothing iff no input is constant |
| Photonic20l.Weights | lightcompiler/backends/photonic_20l.py:39-47 | the first constant input is taken as it is; otherwise the weights, random of the node's shape or the identity, hold one entry per element of their shape when `randn` returns `prod(shape)` values |
| Photonic20l.Phases | lightcompiler/backends/photonic_20l.py:56 | theta holds the angle of each of the first k flattened weights |
| Photonic20l.Magnitudes | lightcompiler/backends/photonic_20l.py:57 | phi holds `abs(w) % (pi/2)` of each of the first k weights, in [0, pi/2) |
| Photonic20l.WdmPlan | lightcompiler/backends/photonic_20l.py:61 | n channels, channel i at `1550 + 0.8 i` |
| Photonic20l.Lower | lightcompiler/backends/photonic_20l.py:50-61 | IndexError iff the weights are 0-dimensional (`shape[0]` fails) |
| Photonic20l.LowerContents | lightcompiler/backends/photonic_20l.py:50-63 | `num_mzis = n(n-1)//2`; theta and phi come from the first `min(num_mzis, size)` weights, phi in [0, pi/2); n WDM channels |
| Photonic20l.Step | lightcompiler/backends/photonic_20l.py:24-32 | a node that is not a `MatMulNode` leaves the compilation state unchanged |
| Photonic20l.Run | lightcompiler/backends/photonic_20l.py:24-32 | a run that starts after an exception changes nothing; a run without exception never moves the layer counter back |
| Photonic20l.Photonic20LBackend.constructor | lightcompiler/backends/photonic_20l.py:11-18 | the given layers, each with an empty configuration, mesh size 128 and no resources |
| Photonic20l.Photonic20LBackend.Default | lightcompiler/backends/photonic_20l.py:11-18 | the defaults: 20 layers, intelligence layers 5..15 |
| Photonic20l.Photonic20LBackend.Compile | lightcompiler/backends/photonic_20l.py:20-34 | `compile` leaves the configs and resources the specified run reaches, and returns the configs or the first exception raised; `randn` returns `prod(shape)` values, as `np.random.randn(*shape)` does |
| Photonic20l.Photonic20LBackend.CompileNode | lightcompiler/backends/photonic_20l.py:25-32 | the loop body performs exactly one specified step |
| Photonic20l.Photonic20LBackend.LowerAdd | lightcompiler/backends/photonic_20l.py:65-68 | `_lower_add` changes nothing |
| Photonic20l.Photonic20LBackend.LowerMatMul | lightcompiler/backends/photonic_20l.py:36-63 | `_lower_matmul` raises IndexError (bad weights) or KeyError (unknown layer) without changes, otherwise overwrites the layer's configuration and records the layer and MZI count for the node |
| Photonic20l.RunAdvance | lightcompiler/backends/photonic_20l.py:24-32 | one more node is one more step after an error-free prefix |
| Photonic20l.RunNext | lightcompiler/backends/photonic_20l.py:24-32 | the run over k+1 nodes is one step after the run over k, unless that one raised |
| Photonic20l.RunStops | lightcompiler/backends/photonic_20l.py:24-32 | after an exception the remaining nodes are not compiled |
| Photonic20l.RunCounts | lightcompiler/backends/photonic_20l.py:22-29 | without exception the layer counter advances once per `MatMulNode` |
| Photonic20l.RoundRobin | lightcompiler/backends/photonic_20l.py:22-29 | the j-th `MatMulNode` (j counted from the start) is recorded on layer `layers[j % len(layers)]` with `n(n-1)//2` MZIs, and that layer's configuration is the lowering of its weights |
| Photonic20l.RunKeeps | lightcompiler/backends/photonic_20l.py:24-29 | every recorded resource stays on an intelligence layer |
| Photonic20l.WeightsShape | lightcompiler/backends/photonic_20l.py:39-47 | the weights have a first dimension iff the node is lowerable |
| Photonic20l.RunSucceeds | lightcompiler/backends/photonic_20l.py:20-34 | with layers that all have configurations and lowerable nodes, compilation raises nothing |
| Photonic20l.ConfigKeys | lightcompiler/backends/photonic_20l.py:59-61 | compilation never adds or removes a layer key |
| Photonic20l.RunNoLayers | lightcompiler/backends/photonic_20l.py:27 | with no layers, compilation raises ZeroDivisionError iff a `MatMulNode` occurs |
| Photonic20l.RunSkips | lightcompiler/backends/photonic_20l.py:24-32 | a list without `MatMulNode`s changes nothing |
| GenericTpuNpu.InstrFields | lightcompiler/backends/generic_tpu_npu.py:18 | an instruction starts with `SYSTOLIC_MATMUL `, then the node name, then ` SIZE=` and the size, which reads back |
| GenericTpuNpu.Instr | lightcompiler/backends/generic_tpu_npu.py:18 | an instruction opens with `SYSTOLIC_MATMUL ` and is longer than the opcode, the node name and ` SIZE=` together |
| GenericTpuNpu.Instrs | lightcompiler/backends/generic_tpu_npu.py:14-19 | one instruction per `MatMulNode`, in order, each naming that node and the array size |
| GenericTpuNpu.InstrsAppend | lightcompiler/backends/generic_tpu_npu.py:14-19 | compiling two lists in a row emits what compiling their concatenation does |
| GenericTpuNpu.InstrsNext | lightcompiler/backends/generic_tpu_npu.py:16-18 | one more node adds its instruction, if any, at the end |
| GenericTpuNpu.GenericTpuNpuBackend.constructor | lightcompiler/backends/generic_tpu_npu.py:10-12 | the given array size and no instructions |
| GenericTpuNpu.GenericTpuNpuBackend.Compile | lightcompiler/backends/generic_tpu_npu.py:14-19 | `compile` appends the instructions to the list kept across calls and returns the whole list |
| UniversalXpu.Select | lightcompiler/backends/universal_xpu.py:32-45 | a bucket holds at most the given nodes |
| UniversalXpu.Plan | lightcompiler/backends/universal_xpu.py:26-30 | the plan has exactly the keys photonic, gpu and tpu |
| UniversalXpu.SelectAppend | lightcompiler/backends/universal_xpu.py:32-45 | dispatching a concatenation fills each bucket with both parts, in order |
| UniversalXpu.SelectMembers | lightcompiler/backends/universal_xpu.py:32-45 | a node is in a bucket iff it is given and targets that bucket |
| UniversalXpu.SelectPartition | lightcompiler/backends/universal_xpu.py:26-47 | for a valid override or none, the buckets together hold every node exactly as often as given |
| UniversalXpu.Distribute | lightcompiler/backends/universal_xpu.py:34-45 | appending a node to its one bucket adds it once to the union |
| UniversalXpu.TargetIsBucket | lightcompiler/backends/universal_xpu.py:33-45 | every node targets one of the three buckets |
| UniversalXpu.Target | lightcompiler/backends/universal_xpu.py:33-45 | with an override a node goes to the override; without one it goes to photonic or gpu |
| UniversalXpu.SelectLast | lightcompiler/backends/universal_xpu.py:32-45 | the last node lands in its own bucket only |
| UniversalXpu.PlanNext | lightcompiler/backends/universal_xpu.py:32-45 | one more node is appended to its target bucket, all others unchanged |
| UniversalXpu.SelectOverride | lightcompiler/backends/universal_xpu.py:33-35 | with an override every node goes to that bucket and no other |
| UniversalXpu.DispatchFails | lightcompiler/backends/universal_xpu.py:33-35 | KeyError iff an override names no bucket and there is a node |
| UniversalXpu.DispatchSpec | lightcompiler/backends/universal_xpu.py:18-47 | KeyError only when there is a node; a plan returned has exactly the keys photonic, gpu and tpu |
| UniversalXpu.DispatchPartition | lightcompiler/backends/universal_xpu.py:26-47 | a successful plan holds every node exactly once over its buckets |
| UniversalXpu.DispatchOverride | lightcompiler/backends/universal_xpu.py:33-35 | an override to a bucket puts all nodes there, in order, and nothing elsewhere |
| UniversalXpu.DispatchDefault | lightcompiler/backends/universal_xpu.py:37-45 | without override: photonic gets exactly the latency-priority `MatMulNode`s, gpu all others, tpu nothing |
| UniversalXpu.SelectNoTpu | lightcompiler/backends/universal_xpu.py:37-45 | without override nothing goes to tpu |
| UniversalXpu.Results | lightcompiler/backends/universal_xpu.py:51-58 | the result has a key exactly for each non-empty bucket, holding that backend's output |
| UniversalXpu.DefaultSkipsTpu | lightcompiler/backends/universal_xpu.py:37-58 | a plan dispatched without override yields no tpu result |
| UniversalXpu.PhotonicStage | lightcompiler/backends/universal_xpu.py:52-53 | an empty photonic bucket leaves the backend's state as it is |
| UniversalXpu.UniversalXpuDispatcher.constructor | lightcompiler/backends/universal_xpu.py:13-16 | fresh default photonic and TPU backends |
| UniversalXpu.UniversalXpuDispatcher.Dispatch | lightcompiler/backends/universal_xpu.py:18-47 | `dispatch` computes exactly the specified plan, or KeyError for an unknown override |
| UniversalXpu.UniversalXpuDispatcher.CompileAll | lightcompiler/backends/universal_xpu.py:49-58 | `compile_all`: KeyError for a missing bucket key; photonic compiled only when non-empty, its exception propagated; the TPU list extended by the tpu bucket's instructions; the result as specified |
| Text.DigitChar | gerber_viewer.py:114 | the character of a digit reads back as that digit |
| Text.NatToString | lightcompiler/backends/generic_tpu_npu.py:18 | `str(n)` of a natural is a non-empty digit string without a leading zero |
| Text.NatToStringValue | lightcompiler/backends/generic_tpu_npu.py:18 | `str(n)` of a natural reads back as n |
| Text.IntToStringRoundTrip | lightcompiler/backends/generic_tpu_npu.py:18 | `int(str(n)) == n` for every integer |
| Text.IntToString | lightcompiler/backends/generic_tpu_npu.py:18 | `str(n)` is non-empty and starts with `-` exactly when n is negative |
| Text.PyIntOfDigits | gerber_viewer.py:114 | `int()` of a digit string is its decimal value |
| Text.PyIntOfSignedDigits | gerber_to_cnc.py:15 | `int()` of an optionally negated digit string is its signed value |
| Text.PyIntOfNegDigits | gerber_viewer.py:114 | `int("-" + d)` is minus the value of d |
| Text.PyInt | gerber_viewer.py:114 | `int()` accepts no text that is blank once stripped |
| Text.PyIntRejectsDot | gerber_to_cnc.py:14-18 | `int()` rejects every text holding a `.` |
| Text.PyIntRejectsBlank | gerber_to_cnc.py:14-18 | `int()` rejects every text of whitespace only, the empty text among them |
| Text.FloatOfNumeral | gerber_viewer.py:173 | `float()` rejects the empty text and a lone `-` |
| Text.FloatOfNumeralHasDigit | gerber_viewer.py:173 | `float()` accepts a numeral only when it holds a digit, so `.` and `-.` are rejected |
| Text.Strip | gerber_viewer.py:71 | `str.strip()` over ASCII whitespace: the text is the result with whitespace only before and after it, and the result has none at either end |
| Text.StripLeft | gerber_viewer.py:71 | `lstrip` is never longer than the text and leaves no whitespace at the start |
| Text.StripRight | gerber_viewer.py:71 | `rstrip` is never longer than the text and leaves no whitespace at the end |
| Text.StripOfUnspaced | gerber_viewer.py:71 | stripping a string without surrounding whitespace changes nothing |
| Text.Upper | cnc_renderer.py:26 | `str.upper()` over ASCII keeps the length |
| Text.UpperAt | cnc_renderer.py:26 | `str.upper()` over ASCII maps each character on its own, a-z to A-Z |
| Text.Lower | gerber_to_cnc.py:80 | `str.lower()` over ASCII keeps the length |
| Text.LowerAt | gerber_to_cnc.py:80 | `str.lower()` over ASCII maps each character on its own, A-Z to a-z |
| Text.Split | gerber_viewer.py:69 | `split('\n')` returns at least one part, none holding the separator |
| Text.SplitJoin | gerber_viewer.py:69 | joining the parts of a split with the separator gives the text back |
| Text.FormatFixed6RoundTrip | gerber_to_cnc.py:57 | a coordinate written with six decimals, `f"{x:.6f}"`, reads back as the same value |
| Text.FormatFixed6 | gerber_to_cnc.py:57 | `f"{v:.6f}"` always holds a decimal point |

## Left out

- Floating-point behaviour: rounding, NaN and infinities are not modelled, because reals stand for doubles. numpy's division by a zero wavelength, which yields inf instead of raising, is one such case.
- Transcendental kernels (cos, sin, exp, sqrt, atan2, abs, the norm and the RMS) are abstract fields of `Physics`. Only properties that hold for any such kernel are proved.
- `PhotonicWaveguide.effective_index`, `MachZehnderModulator`, `RingResonator.resonance_wavelengths`, `transmission_spectrum`, `tune_to`, `compute_throughput`, `WDMMultiplexer` multiplex/demultiplex, `_optical_fft_kernel`, `PhotonicFFT` and `calculate_photonic_performance` are not modelled. They are numeric physics formulas or wrappers over them, outside the deterministic core.
- The `waveguides` and `mzi_array` lists that `PhotonicMatrixMultiplier.__init__` fills with default objects are not modelled, because nothing reads them.
- The int32 dtype of the index and bin arrays is not modelled, because indices are unbounded naturals. Every mesh of fewer than 2^31 elements behaves the same.
- PhotonicCore.PhotonicMatrixMultiplier.constructor: requires a non-zero Q factor. With Q = 0 the source raises ZeroDivisionError in `_update_resonator_weights`, and that error path is not modelled.
- PhotonicCore.PhotonicMatrixMultiplier.TrainScl: takes the shuffled sample orders as a parameter, one permutation per epoch. It does not model the random generator that draws them.
- GerberViewer.GerberParser.GenerateVisualizationData: requires every aperture to have at least one size. Every aperture that `parse_file` defines has one; apertures inserted by other code are not modelled.
- `generate_all_layers`, `generate_orthographic_views` and `parse_gerber_file` in gerber_viewer.py are not modelled. They list directories, plot with matplotlib and print errors.
- `CNCRenderer.render_file` and `render_all` are not modelled. They draw with matplotlib and walk directories.
- `GerberToCNC.zip_files` and the directory handling of `convert_all` (`os.makedirs`, `os.listdir`) are not modelled. The file names and contents are parameters, and the text written is the list of lines.
- `UCGNode.dtype`, `__repr__`, `ComputeGraph.summary` and `Photonic20LBackend.get_summary` are not modelled. They are printing or unused fields.
- The insertion order of Python dicts is not modelled. The plan, the layer configurations and the result of `compile_all` are maps.
- `lightcompiler/backends/generic_gpu.py` is not part of this model. Its `compile` is the parameter `gpu` of `CompileAll`.
- `lightcompiler/compiler_v2.py` (a command-line driver) and `setup.py` are not part of this model.
- All printing, file reading and file writing are not modelled.
- Text.Upper, Text.UpperAt, Text.Lower, Text.LowerAt: map ASCII letters only. Python maps every Unicode letter, and some change length (`'ß'.upper()` is `'SS'`); the files read here are G-code and Gerber text.
- Text.Strip, Text.StripLeft, Text.StripRight: strip the ASCII whitespace and 0x1c-0x1f only, not the other Unicode spaces Python strips.
- Text.PyInt: accepts ASCII digits, with single `_` between digits as Python does, and strips ASCII whitespace only. Python's `int()` also accepts the other Unicode decimal digits (such as `'١'`) and strips the non-ASCII whitespace (such as U+00A0).
- Text.FloatOfNumeral: reads only the numerals the patterns capture (ASCII digits, `.` and a leading `-`), not exponents, `inf` or `nan`.
- GenericTpuNpu.GenericTpuNpuBackend.Compile, Photonic20l.Photonic20LBackend.Compile, UniversalXpu.UniversalXpuDispatcher.CompileAll: return their lists and maps as values. The source returns the live `self.instructions` and `self.layer_configs` (lightcompiler/backends/generic_tpu_npu.py:19, lightcompiler/backends/photonic_20l.py:34, lightcompiler/backends/universal_xpu.py:53-57), so a later compile also changes what an earlier call returned; that aliasing is not modelled.
- Photonic20l.Photonic20LBackend.Compile, UniversalXpu.UniversalXpuDispatcher.CompileAll: require that the `randn` parameter returns `prod(shape)` values for a shape, as `np.random.randn(*shape)` does.
- UnifiedIr.Visit: the recursion is unbounded. Python raises RecursionError near 1000 nested calls (lightcompiler/unified_ir.py:78-83), which is not modelled.
- PhotonicCore.PhotonicMatrixMultiplier.constructor: takes the size as a natural. A negative size in Python (size = -1 gives num_mzi 1 with an empty index table, and `multiply` then raises IndexError) is not modelled.

## Findings

| source | as written | input that shows it | evidently intended | confidence | as-written member | corrected member |
|---|---|---|---|---|---|---|
| lightcompiler/unified_ir.py:90 | `stack[::-1]` reverses a stack that already holds producers before consumers, so the returned order puts every consumer before its producers | X = InputNode, W = ConstantNode, Y = MatMulNode(X, W): the result starts with Y | the forward order the comment promises, each node before its consumers | not executed | UnifiedIr.ComputeGraph.TopoSort (counterexample: UnifiedIr.TopoSortOfMatMul) | UnifiedIr.ComputeGraph.ForwardOrder (proved: UnifiedIr.ForwardOrderAcyclic) |
