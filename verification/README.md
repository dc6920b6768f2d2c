# QuantumSampling core in Dafny

QuantumSampling compares estimators of the model expectation
⟨v·h⟩ = Σ_v vᵀ · P(h = 1 | v) · P(v) of a binary Restricted Boltzmann Machine
(RBM). This project models the deterministic core of that program and proves
what it computes:

- **Bit decoding and L1 comparison** (`utils.dfy`, from `src/utils.py`).
  - `unpackbits` is the little-endian fixed-width decode that drives every
    enumeration loop.
  - `sigmoid` is defined over an abstract exponential.
  - `l1_between_models` is the element-wise L1 distance between two estimates.
- **The parameter record** (`model.dfy`, from `src/model.py`).
  - A weight matrix with |visible| rows of |hidden| entries, plus two bias vectors.
  - The constructor, with the random draw as a parameter.
  - The base `estimate_model`, which always raises.
- **The exact analytical estimator** (`model_analytical.dfy`, from
  `src/model_analytical.py`).
  - The decode-width table and its errors.
  - The exponent −E(v, h), the partition function Z, P(v), `total_pv`,
    the hidden activations and the expectation matrix.
  - All of these are real-valued sums over the 2^n visible and 2^m hidden
    configuration indices.
- **The annealer estimator without the annealer** (`model_dwave.dfy`, from
  `src/model_dwave.py`).
  - The RBM-to-Ising translation `generate_couplings`.
  - The spin-to-unit-state conversion of `extract_values_from_samples`.
  - The averaging of the reads into the estimate.

`sums.dfy` holds the finite sums Σ_{k<n} f(k) with the algebra the proofs
use. `outcomes.dfy` holds the error values and the `Result` type that
stands for an exception the program would raise.

The exponential is a parameter `exp: real -> real`. The proofs use only that
it is positive and that exp(0) = 1 (`Utils.IsExp`). Everything else is
exact real arithmetic.

The main results:

- For every supported machine, Z > 0 and the probabilities P(v) sum to
  exactly 1.
- Every entry of the estimate lies in [0, 1].
- A machine with zero parameters estimates exactly 1/4 in every cell.
- Under v = s/2 + 1/2, β times the Ising energy of the translated problem is
  the RBM energy minus a constant that does not depend on the configuration.
  This holds for the translation with full weight columns. The program's
  hidden-field loop stops short of that; see "## Findings".
- Each entry of the annealer's estimate counts the reads in which both units
  are up, divided by 200.

### Behaviour of the code that the model keeps

- **Out-of-range indices.** `unpackbits` masks the index with the low
  `num_bits` powers of two, so an index ≥ 2^width is not rejected: its high
  bits are silently dropped (`Utils.UnpackTruncates`).
- **Supported widths.** The decode table in `src/model_analytical.py`
  holds the visible sizes 8, 10, 16 and 32, and any other size raises in
  `get_int_format` (`Analytical.GetIntFormat`). A machine with two visible
  units therefore cannot be estimated. The 1/4 result for a zero machine is
  proved for every size the table accepts
  (`Analytical.FreshZeroMachineQuarter`).
- **Hidden decode width.** Hidden configurations are decoded at the visible
  width, so the engine only runs when the layer sizes are equal
  (`Analytical.CheckEngine`).
- **Constructor signature.** `Model.__init__` takes
  `(visible_size, hidden_size, generator)`, while the subclasses pass a
  single parameters object. The model keeps one `Parameters` record holding
  the weights and the two bias vectors.

## Model

| member | source | states |
|---|---|---|
| Utils.Unpack | src/utils.py:8-13 | the decoded row has exactly numBits entries, each 0 or 1 |
| Utils.UnpackDigits | src/utils.py:12-13 | entry i of the decoded row is the i-th binary digit of the index, (val / 2^i) mod 2, least significant first |
| Utils.UnpackValue | src/utils.py:12-13 | the positional value Σ bits[i]·2^i of the decoded row is the index modulo 2^numBits |
| Utils.UnpackRoundTrip | src/utils.py:12-13 | an index in [0, 2^numBits) is recovered exactly from its decoded row |
| Utils.UnpackInjective | src/utils.py:12-13 | two indices in [0, 2^numBits) decode to the same row if and only if they are equal, so the enumeration meets each configuration at most once |
| Utils.UnpackOfValue | src/utils.py:12-13 | every row of numBits 0/1 entries is the decoding of its positional value, which lies in [0, 2^numBits); with UnpackInjective, the enumeration meets every configuration exactly once |
| Utils.UnpackTruncates | src/utils.py:12-13 | an index outside the range is not rejected: it decodes to the same row as the index modulo 2^numBits |
| Utils.BitCountIndicator | src/utils.py:12-13 | across all indices in [0, 2^n), bit i (i < n) is set in exactly 2^(n-1) of them |
| Utils.Sigmoid | src/utils.py:19-20 | for any positive exponential with exp(0) = 1, the logistic value lies strictly between 0 and 1, and it is 1/2 at 0 |
| Utils.L1BetweenModels | src/utils.py:23-24 | succeeds exactly for same-shape matrices (otherwise a shape error); the distance is non-negative, and it is 0 exactly when the matrices are equal |
| Utils.DistanceZero | src/utils.py:23-24 | the summed absolute difference vanishes if and only if the two matrices are equal |
| Utils.DistanceSymmetric | src/utils.py:23-24 | the distance from a to b equals the distance from b to a |
| Utils.DistanceTriangle | src/utils.py:23-24 | for three same-shape matrices, the distance from a to c is at most the distance from a to b plus the distance from b to c |
| Model.NewParameters | src/model.py:11-14 | the new record satisfies the shape invariant; both bias vectors have the requested lengths and are all zero; weight (i, j) is the generator's draw for (i, j) |
| Model.BaseEstimateModel | src/model.py:16-17 | the base estimator never yields a matrix: it always fails with the not-estimable error |
| Analytical.GetIntFormat | src/model_analytical.py:18-23 | a width exists exactly for visible sizes 8, 10, 16 and 32, and it equals the size; any other size is an unsupported-width error naming that size |
| Analytical.CheckEngine | src/model_analytical.py:47-48 | enumeration proceeds exactly for supported machines; an unsupported visible size gives the width error first; otherwise unequal layer sizes give a shape error, because hidden rows are decoded at the visible width |
| Analytical.MarginalPositive | src/model_analytical.py:56-59 | the sum of exp(−E(v, h)) over all 2^m hidden indices is strictly positive |
| Analytical.PartitionFunction | src/model_analytical.py:63-73 | Z, the sum of exp(−E) over every (visible index, hidden index) pair, is strictly positive |
| Analytical.ComputePartitionFunction | src/model_analytical.py:63-73 | succeeds exactly for supported machines, with the positive Z; otherwise it fails with the engine's configuration error |
| Analytical.Pv | src/model_analytical.py:53-61 | P(v) is positive, and P(v)·z is the sum of exp(−E(v, h)) over all hidden indices |
| Analytical.ComputePv | src/model_analytical.py:53-61 | succeeds exactly for supported machines, giving P(v); otherwise it fails with the engine's configuration error |
| Analytical.PvSumsToOne | src/model_analytical.py:36-45 | the probabilities of all 2^n visible configurations, normalised by one Z, sum to exactly 1 |
| Analytical.TotalPv | src/model_analytical.py:36-45 | the normalisation check returns exactly 1 for every supported machine and fails with the configuration error otherwise |
| Analytical.HidProb | src/model_analytical.py:50-51 | the activation sigmoid(b_h[j] + Σ_i v_i W_ij) lies strictly between 0 and 1 |
| Analytical.ComputeHidAr | src/model_analytical.py:50-51 | one activation per hidden unit, each the sigmoid of that unit's input and strictly between 0 and 1 |
| Analytical.ExpectationTermBound | src/model_analytical.py:32 | each visible configuration adds between 0 and its own probability P(v) to an entry |
| Analytical.ExpectationEntryBounds | src/model_analytical.py:25-34 | every accumulated entry Σ_v v_i · P(h_j = 1 given v) · P(v) lies in [0, 1] |
| Analytical.ExpectationBounds | src/model_analytical.py:25-34 | every entry of the expectation matrix lies in [0, 1] |
| Analytical.EstimateModel | src/model_analytical.py:25-34 | succeeds exactly for supported machines, giving a |visible| × |hidden| matrix whose entries all lie in [0, 1]; otherwise it fails with the configuration error |
| Analytical.ExponentZero | src/model_analytical.py:59 | with all weights and biases zero, −E(v, h) is 0 for every configuration |
| Analytical.MarginalZero | src/model_analytical.py:53-61 | with zero parameters, the unnormalised marginal of every v is 2^m |
| Analytical.PvZero | src/model_analytical.py:53-61 | with zero parameters, every visible configuration has probability exactly 1/2^n |
| Analytical.HidProbZero | src/model_analytical.py:50-51 | with zero parameters, every hidden unit is on with probability exactly 1/2 |
| Analytical.VisibleUnitCount | src/model_analytical.py:29-30 | visible unit i is on in exactly half of the 2^n enumerated configurations |
| Analytical.ZeroParametersQuarter | src/model_analytical.py:25-34 | with zero parameters, entry (i, j) of the expectation is exactly 1/4 |
| Analytical.ZeroMachineQuarter | src/model_analytical.py:25-34 | a supported machine with zero parameters is estimated as 1/4 in every cell |
| Analytical.FreshZeroMachineQuarter | src/model_analytical.py:25-34 | a machine freshly built at any supported size with zero weights succeeds, with a size × size result of 1/4 in every cell |
| DWave.Units | src/model_dwave.py:102-109 | the field map's labels are exactly v_i for i < n and h_j for j < m |
| DWave.UnitPairs | src/model_dwave.py:98-100 | the coupling map's keys are exactly the (v_i, h_j) pairs, i < n and j < m |
| DWave.Field | src/model_dwave.py:102-115 | a visible field is (−b_v[i]/2 − Σ_j W[i][j]/4)/β; a hidden field is (−b_h[j]/2 − Σ_{i<rows} W[i][j]/4)/β; both are built by repeated subtraction, as the loops do |
| DWave.Fields | src/model_dwave.py:102-115 | the field map has exactly one key per unit, each holding that unit's field |
| DWave.Coupling | src/model_dwave.py:98-100 | multiplying the coupling of (v_i, h_j) by β gives back −W[i][j]/4 |
| DWave.CouplingSign | src/model_dwave.py:100 | at β > 0 a coupling is negative (favouring aligned spins) exactly when its weight is positive (favouring both units on) |
| DWave.Couplings | src/model_dwave.py:98-100 | the coupling map has exactly one key per (v_i, h_j) pair, each holding −W[i][j]/(4β) |
| DWave.GenerateCouplings | src/model_dwave.py:91-120 | fails with an index error exactly when there are more hidden than visible units; otherwise it returns fields keyed by every unit and couplings keyed by every pair, with each hidden field summing only the first |hidden| rows of its column |
| DWave.GenerateCouplingsIntended | src/model_dwave.py:108-112 | the same maps, with each hidden field summing its whole weight column |
| DWave.SpinToBit | src/model_dwave.py:66 | spin −1 becomes unit state 0 and spin +1 becomes unit state 1 |
| DWave.SpinBitRoundTrip | src/model_dwave.py:66 | s/2 + 1/2 and 2b − 1 are inverse to each other |
| DWave.SpinRowStates | src/model_dwave.py:64-69 | a vector holds only spins ±1 if and only if its conversion holds only unit states 0/1 |
| DWave.SpinsBitsRoundTrip | src/model_dwave.py:64-69 | converting spins to unit states and back with 2b − 1 returns the spins, and converting unit states to spins and back returns the states |
| DWave.ExponentInSpins | src/model_dwave.py:91-120 | at v = s/2 + 1/2 and h = t/2 + 1/2 the RBM exponent splits into a spin-pair part, a part linear in each layer's spins and the constant −C |
| DWave.Lookups | src/model_dwave.py:98-112 | reading a translated problem back by unit number yields the translation's fields and couplings |
| DWave.AgreeScale | src/model_dwave.py:114-118 | dividing every field and coupling by β scales them by 1/β relative to the β = 1 translation |
| DWave.UnitEnergy | src/model_dwave.py:91-120 | at β = 1, with full weight columns, the Ising energy equals −Exponent − C for every spin configuration |
| DWave.SpinEnergyScale | src/model_dwave.py:114-118 | multiplying every field and coupling by β multiplies the Ising energy by β |
| DWave.TranslatedIsingEnergy | src/model_dwave.py:91-120 | any Ising problem whose values agree with the full-column translation at β has β·energy = −Exponent − C at every configuration |
| DWave.EnergyCorrespondence | src/model_dwave.py:91-120 | for the full-column translation, at any spins s, t, β · IsingEnergy(s, t) = E_RBM(s/2 + 1/2, t/2 + 1/2) − C, with C independent of the configuration |
| DWave.AsWrittenSquare | src/model_dwave.py:108-112 | with equal layer sizes, the program's translation is the full-column one |
| DWave.AsWrittenSquareEnergy | src/model_dwave.py:91-120 | with equal layer sizes, the problem the program returns satisfies the energy correspondence |
| DWave.TallHiddenField | src/model_dwave.py:111 | for two visible units and one hidden unit with W = [[0], [1]], the program's hidden field is 0 where the full column gives −1/4 |
| DWave.TallEnergyGap | src/model_dwave.py:111 | on that machine, at s = (−1, −1) and t = (+1), the intended problem meets the correspondence and the program's problem misses it by exactly 1/4 |
| DWave.ReadStates | src/model_dwave.py:64-69 | one layer of a sample reads successfully exactly when every unit label is present; it gives one converted state per unit, and a missing label is a missing-spin error |
| DWave.ReadSample | src/model_dwave.py:64-69 | a sample reads successfully exactly when it holds every visible and every hidden label, giving both converted rows |
| DWave.ExtractValues | src/model_dwave.py:57-71 | succeeds exactly when every sample is complete; it gives one row per sample with visible state [k][i] = s_k(v_i)/2 + 1/2 and hidden state [k][j] = s_k(h_j)/2 + 1/2 |
| DWave.SampleEstimate | src/model_dwave.py:55 | the averaged product of the transposed visible states and the hidden states is an n × m matrix |
| DWave.EstimateFromSamples | src/model_dwave.py:53-55 | the read-out succeeds exactly when every sample is complete, giving an n × m matrix; otherwise it is a missing-spin error |
| DWave.BothUpIsSum | src/model_dwave.py:55 | summing the per-read indicator counts the reads in which both units are up |
| DWave.CoOccurrenceCount | src/model_dwave.py:55 | with ±1 spins, the column product Σ_k v_ki · h_kj counts the reads in which v_i and h_j are both up |
| DWave.EstimateCounts | src/model_dwave.py:55 | each entry of the estimate is the number of reads with both units up, divided by 200 |
| DWave.EstimateBounds | src/model_dwave.py:55 | with at most 200 reads, every entry of the estimate lies in [0, 1] |

## Left out

- `src/main.py` is the driver. It uses hardcoded sizes and seeds and prints
  its results.
- `src/model_cd.py` and `utils.sample` are not modelled. They draw from an
  unseeded global random generator, so there is nothing deterministic to
  state about them.
- The annealer's side of `src/model_dwave.py` is not modelled, because it
  consists of foreign library calls and file I/O. This covers:
  - the sampler, `FixedEmbeddingComposite` and `sample_ising`;
  - the anneal schedule and the spin-reversal transforms;
  - `generate_embedding`;
  - `generate_graph`, which reads the JSON topology file;
  - the `show` inspector.
- Samples in place of the sampleset. The sampleset becomes a given sequence
  of samples, each a map from unit labels to integer spins. The
  `"v_{i}"`/`"h_{j}"` strings become the `V(i)`/`H(j)` labels.
- Model.NewParameters: the weight draw `generator.normal(0.0, 0.01, …)` is
  a parameter `draw`, so nothing is stated about the distribution of the
  weights.
- Floating point is not modelled. Sums are exact reals. `np.exp` is an
  arbitrary positive function with exp(0) = 1. Rounding and overflow are
  not represented.
- Machine integers are not modelled. The configuration index is an unbounded
  integer, so the int64 width of the mask array does not appear.
- numpy's `np.matrix` artefacts, such as the `[0, 0]` indexing and
  broadcasting between shapes, are replaced by the explicit shape conditions
  and errors.
- Utils.L1BetweenModels: numpy would broadcast some differently shaped
  operands instead of raising. The model reports every shape mismatch as an
  error.
- DWave.GenerateCouplings: β = 0 is excluded by a precondition. The program
  would divide by zero and produce infinities rather than raise.
- Analytical.ComputePv: the caller must pass a positive z. The program only
  calls it with the partition function, which is always positive.
- DWave.IsingEnergy is the energy over unit numbers 0 … n−1 and 0 … m−1, with
  an absent key read as 0. The annealer's own evaluation over arbitrary keys
  is not modelled.
- The number of samples can differ from `num_reads` = 200: the program still
  divides by 200 (line 55). DWave.EstimateBounds therefore states the [0, 1]
  bound only for at most 200 samples.
- The closed form of Z for a zero machine, Z = 2^n · 2^m, is not stated.
  Only the consequences the estimate needs are proved: the uniform P(v) and
  the 1/4 entries.

## Findings

| source | as written | input that shows it | evidently intended | confidence | as-written member | corrected member |
|---|---|---|---|---|---|---|
| src/model_dwave.py:111 | the hidden field h_j subtracts W[i][j]/4 only for i < len(hidden): with fewer hidden than visible units it leaves out the later rows, and with more hidden than visible units it reads past the weight matrix | two visible units, one hidden unit, W = [[0], [1]], zero biases, β = 1, spins s = (−1, −1), t = (+1): the program's problem has energy 1/2, while E_RBM − C = 1/4 | the row index runs over `range(len(self.visible))`, so each hidden field sums its whole weight column and β·E_Ising = E_RBM − C holds for every layer size | high; not executed | DWave.GenerateCouplings, DWave.TallHiddenField, DWave.TallEnergyGap | DWave.GenerateCouplingsIntended, DWave.EnergyCorrespondence |
