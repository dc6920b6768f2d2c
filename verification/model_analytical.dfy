/** The exact analytical estimator (model_analytical.py): brute-force
    enumeration of every visible and hidden configuration of a binary RBM.

    Configurations are enumerated as integer indices and decoded with
    `Unpack` at the width the decode-width table gives for the visible layer.
    The hidden indices are decoded at that same width, so the engine only
    runs when both layers have the same size. */
module Analytical {
  import opened Outcomes
  import opened Sums
  import opened Utils
  import opened Model

  /** The decode-width table: visible sizes the engine accepts. */
  const UnpackTypes: map<nat, nat> := map[8 := 8, 10 := 10, 16 := 16, 32 := 32]

  /** `get_int_format`: the decode width for the visible layer's size. */
  function GetIntFormat(p: Parameters): (r: Result<nat>)
    ensures r.Ok? <==> |p.visible| in {8, 10, 16, 32}
    ensures r.Ok? ==> r.value == |p.visible|
    ensures r.Err? ==> r.error == UnsupportedWidth(|p.visible|)
  {
    if |p.visible| in UnpackTypes then Ok(UnpackTypes[|p.visible|]) else Err(UnsupportedWidth(|p.visible|))
  }

  /** The parameters the engine can enumerate without raising. */
  predicate Supported(p: Parameters)
  {
    p.Valid() && |p.visible| in UnpackTypes && |p.hidden| == |p.visible|
  }

  /** The first error any enumeration raises: the width lookup fails for an
      unsupported visible size; otherwise a hidden row decoded at the
      visible width does not match the hidden bias vector unless the layers
      have equal size. */
  function CheckEngine(p: Parameters): (r: Result<nat>)
    requires p.Valid()
    ensures r.Ok? <==> Supported(p)
    ensures r.Ok? ==> r.value == |p.visible| == |p.hidden|
    ensures |p.visible| !in {8, 10, 16, 32} ==> r == Err(UnsupportedWidth(|p.visible|))
    ensures |p.visible| in {8, 10, 16, 32} && |p.hidden| != |p.visible| ==> r == Err(ShapeMismatch)
  {
    var width :- GetIntFormat(p);
    if |p.hidden| != width then Err(ShapeMismatch) else Ok(width)
  }

  // ---------------------------------------------------------------------
  // Configurations and the exponent -E(v, h)
  // ---------------------------------------------------------------------

  /** Entry i of a configuration vector, or 0 outside it. */
  function At(v: seq<real>, i: nat): real
  {
    if i < |v| then v[i] else 0.0
  }

  /** The decoded configuration of an enumeration index, as reals: the
      row `Unpack(index, width)` (see `ConfigIsUnpack`). */
  function Config(index: int, width: nat): (c: seq<real>)
    ensures |c| == width
    ensures forall i :: 0 <= i < width ==> c[i] == Bit(index, i) as real
  {
    seq(width, (i: nat) => Bit(index, i) as real)
  }

  lemma ConfigIsUnpack(index: int, width: nat)
    ensures forall i :: 0 <= i < width ==> Config(index, width)[i] == Unpack(index, width)[i] as real
  {
  }

  function CouplingTerms(p: Parameters, v: seq<real>, h: seq<real>, i: nat): nat -> real
  {
    (j: nat) => At(v, i) * At(h, j) * p.W(i, j)
  }

  function CouplingRows(p: Parameters, v: seq<real>, h: seq<real>): nat -> real
  {
    (i: nat) => Sum(|p.hidden|, CouplingTerms(p, v, h, i))
  }

  function VisibleTerms(p: Parameters, v: seq<real>): nat -> real
  {
    (i: nat) => p.Bv(i) * At(v, i)
  }

  function HiddenTerms(p: Parameters, h: seq<real>): nat -> real
  {
    (j: nat) => p.Bh(j) * At(h, j)
  }

  /** The exponent -E(v, h) = sum_ij v_i h_j W_ij + b_v . v + b_h . h, the
      one formula both the partition function and P(v) exponentiate. */
  function Exponent(p: Parameters, v: seq<real>, h: seq<real>): real
  {
    Sum(|p.visible|, CouplingRows(p, v, h))
    + Sum(|p.visible|, VisibleTerms(p, v))
    + Sum(|p.hidden|, HiddenTerms(p, h))
  }

  // ---------------------------------------------------------------------
  // Partition function and P(v)
  // ---------------------------------------------------------------------

  /** exp(-E(v, h)) for each hidden index, decoded at the visible width. */
  function HiddenWeights(p: Parameters, exp: real -> real, v: seq<real>): nat -> real
  {
    (hj: nat) => exp(Exponent(p, v, Config(hj, |p.visible|)))
  }

  /** Unnormalised marginal of v: the sum over all 2^|hidden| hidden indices. */
  function Marginal(p: Parameters, exp: real -> real, v: seq<real>): real
  {
    Sum(Pow2(|p.hidden|), HiddenWeights(p, exp, v))
  }

  function Marginals(p: Parameters, exp: real -> real): nat -> real
  {
    (vi: nat) => Marginal(p, exp, Config(vi, |p.visible|))
  }

  lemma MarginalPositive(p: Parameters, exp: real -> real, v: seq<real>)
    requires IsExp(exp)
    ensures 0.0 < Marginal(p, exp, v)
  {
    SumPos(Pow2(|p.hidden|), HiddenWeights(p, exp, v));
  }

  /** Z: exp(-E) summed over every (visible index, hidden index) pair of
      [0, 2^|visible|) x [0, 2^|hidden|), row by row. */
  function PartitionFunction(p: Parameters, exp: real -> real): (z: real)
    requires IsExp(exp)
    ensures 0.0 < z
  {
    forall vi: nat | vi < Pow2(|p.visible|)
      ensures 0.0 < Marginals(p, exp)(vi)
    {
      MarginalPositive(p, exp, Config(vi, |p.visible|));
    }
    SumPos(Pow2(|p.visible|), Marginals(p, exp));
    Sum(Pow2(|p.visible|), Marginals(p, exp))
  }

  /** `compute_partition_function`. */
  function ComputePartitionFunction(p: Parameters, exp: real -> real): (r: Result<real>)
    requires p.Valid() && IsExp(exp)
    ensures r.Ok? <==> Supported(p)
    ensures r.Err? ==> r == CheckEngine(p).PropagateFailure()
    ensures r.Ok? ==> r.value == PartitionFunction(p, exp) && 0.0 < r.value
  {
    var _ :- CheckEngine(p);
    Ok(PartitionFunction(p, exp))
  }

  /** P(v) given the partition function z. */
  function Pv(p: Parameters, exp: real -> real, v: seq<real>, z: real): (pv: real)
    requires IsExp(exp) && 0.0 < z
    ensures 0.0 < pv
    ensures pv * z == Marginal(p, exp, v)
  {
    MarginalPositive(p, exp, v);
    DivFacts(Marginal(p, exp, v), z);
    Marginal(p, exp, v) / z
  }

  /** `compute_pv(v, z)`: the hidden indices are decoded at the visible width. */
  function ComputePv(p: Parameters, exp: real -> real, v: seq<real>, z: real): (r: Result<real>)
    requires p.Valid() && |v| == |p.visible| && IsExp(exp) && 0.0 < z
    ensures r.Ok? <==> Supported(p)
    ensures r.Err? ==> r == CheckEngine(p).PropagateFailure()
    ensures r.Ok? ==> r.value == Pv(p, exp, v, z)
  {
    var _ :- CheckEngine(p);
    Ok(Pv(p, exp, v, z))
  }

  function PvTerms(p: Parameters, exp: real -> real, z: real): nat -> real
    requires IsExp(exp) && 0.0 < z
  {
    (vi: nat) => Pv(p, exp, Config(vi, |p.visible|), z)
  }

  /** The probabilities of all 2^n visible configurations, with Z computed
      once, add up to exactly 1. */
  lemma PvSumsToOne(p: Parameters, exp: real -> real)
    requires IsExp(exp)
    ensures Sum(Pow2(|p.visible|), PvTerms(p, exp, PartitionFunction(p, exp))) == 1.0
  {
    var z := PartitionFunction(p, exp);
    forall vi: nat | vi < Pow2(|p.visible|)
      ensures PvTerms(p, exp, z)(vi) == Marginals(p, exp)(vi) / z
    {
    }
    NormalisedSum(Pow2(|p.visible|), z, Marginals(p, exp), PvTerms(p, exp, z));
  }

  /** `total_pv`. */
  function TotalPv(p: Parameters, exp: real -> real): (r: Result<real>)
    requires p.Valid() && IsExp(exp)
    ensures r.Ok? <==> Supported(p)
    ensures r.Err? ==> r == CheckEngine(p).PropagateFailure()
    ensures r.Ok? ==> r.value == 1.0
  {
    var z :- ComputePartitionFunction(p, exp);
    PvSumsToOne(p, exp);
    Ok(Sum(Pow2(|p.visible|), PvTerms(p, exp, z)))
  }

  // ---------------------------------------------------------------------
  // Hidden activations and the expectation matrix
  // ---------------------------------------------------------------------

  function InputTerms(p: Parameters, v: seq<real>, j: nat): nat -> real
  {
    (i: nat) => At(v, i) * p.W(i, j)
  }

  /** P(h_j = 1 | v) = sigmoid(b_h[j] + sum_i v_i W_ij). */
  function HidProb(p: Parameters, exp: real -> real, v: seq<real>, j: nat): (q: real)
    requires IsExp(exp)
    ensures 0.0 < q < 1.0
  {
    Sigmoid(exp, p.Bh(j) + Sum(|p.visible|, InputTerms(p, v, j)))
  }

  /** `compute_hid_ar(v)`: one activation probability per hidden unit, each
      strictly between 0 and 1. */
  function ComputeHidAr(p: Parameters, exp: real -> real, v: seq<real>): (r: seq<real>)
    requires p.Valid() && |v| == |p.visible| && IsExp(exp)
    ensures |r| == |p.hidden|
    ensures forall j :: 0 <= j < |r| ==> 0.0 < r[j] < 1.0
    ensures forall j :: 0 <= j < |r| ==> r[j] == HidProb(p, exp, v, j)
  {
    seq(|p.hidden|, (j: nat) => HidProb(p, exp, v, j))
  }

  /** v_i for each visible index. */
  function VisibleUnit(p: Parameters, i: nat): nat -> real
  {
    (vi: nat) => At(Config(vi, |p.visible|), i)
  }

  /** P(h_j = 1 | v) for each visible index. */
  function HidProbs(p: Parameters, exp: real -> real, j: nat): nat -> real
    requires IsExp(exp)
  {
    (vi: nat) => HidProb(p, exp, Config(vi, |p.visible|), j)
  }

  /** The contribution of each visible index to entry (i, j):
      v_i * P(h_j = 1 | v) * P(v). */
  function ExpectationTerms(p: Parameters, exp: real -> real, z: real, i: nat, j: nat): nat -> real
    requires IsExp(exp) && 0.0 < z
  {
    Product3(VisibleUnit(p, i), HidProbs(p, exp, j), PvTerms(p, exp, z))
  }

  /** The accumulated matrix sum_v v^T . hid_ar(v) . P(v). */
  function Expectation(p: Parameters, exp: real -> real, z: real): Matrix
    requires IsExp(exp) && 0.0 < z
  {
    seq(|p.visible|, (i: nat) =>
      seq(|p.hidden|, (j: nat) => Sum(Pow2(|p.visible|), ExpectationTerms(p, exp, z, i, j))))
  }

  lemma ExpectationTermBound(p: Parameters, exp: real -> real, z: real, i: nat, j: nat, vi: nat)
    requires IsExp(exp) && 0.0 < z && i < |p.visible|
    ensures 0.0 <= ExpectationTerms(p, exp, z, i, j)(vi) <= PvTerms(p, exp, z)(vi)
  {
    var v := Config(vi, |p.visible|);
    assert At(v, i) == 0.0 || At(v, i) == 1.0;
    WeightedBound(At(v, i), HidProb(p, exp, v, j), Pv(p, exp, v, z));
  }

  /** Each entry of the expectation is a probability: it lies in [0, 1]. */
  lemma ExpectationEntryBounds(p: Parameters, exp: real -> real, i: nat, j: nat)
    requires IsExp(exp) && i < |p.visible|
    ensures 0.0 <= Sum(Pow2(|p.visible|), ExpectationTerms(p, exp, PartitionFunction(p, exp), i, j)) <= 1.0
  {
    var z := PartitionFunction(p, exp);
    var n := Pow2(|p.visible|);
    forall vi: nat | vi < n
      ensures 0.0 <= ExpectationTerms(p, exp, z, i, j)(vi) <= PvTerms(p, exp, z)(vi)
    {
      ExpectationTermBound(p, exp, z, i, j, vi);
    }
    SumNonneg(n, ExpectationTerms(p, exp, z, i, j));
    SumMono(n, ExpectationTerms(p, exp, z, i, j), PvTerms(p, exp, z));
    PvSumsToOne(p, exp);
  }

  /** Every entry of the expectation matrix lies in [0, 1]. */
  lemma ExpectationBounds(p: Parameters, exp: real -> real)
    requires IsExp(exp)
    ensures forall i, j :: 0 <= i < |p.visible| && 0 <= j < |p.hidden| ==>
              0.0 <= Expectation(p, exp, PartitionFunction(p, exp))[i][j] <= 1.0
  {
    var z := PartitionFunction(p, exp);
    forall i, j | 0 <= i < |p.visible| && 0 <= j < |p.hidden|
      ensures 0.0 <= Expectation(p, exp, z)[i][j] <= 1.0
    {
      ExpectationEntryBounds(p, exp, i, j);
    }
  }

  /** `estimate_model`: Z computed once, then the expectation matrix of
      shape |visible| x |hidden| whose entries all lie in [0, 1]. */
  function EstimateModel(p: Parameters, exp: real -> real): (r: Result<Matrix>)
    requires p.Valid() && IsExp(exp)
    ensures r.Ok? <==> Supported(p)
    ensures r.Err? ==> r == CheckEngine(p).PropagateFailure()
    ensures r.Ok? ==> |r.value| == |p.visible|
    ensures r.Ok? ==> forall i :: 0 <= i < |r.value| ==> |r.value[i]| == |p.hidden|
    ensures r.Ok? ==> forall i, j :: 0 <= i < |r.value| && 0 <= j < |r.value[i]| ==>
                        0.0 <= r.value[i][j] <= 1.0
  {
    var z :- ComputePartitionFunction(p, exp);
    ExpectationBounds(p, exp);
    Ok(Expectation(p, exp, z))
  }

  // ---------------------------------------------------------------------
  // The uncoupled, unbiased machine
  // ---------------------------------------------------------------------

  /** All weights and both bias vectors are zero. */
  predicate ZeroParameters(p: Parameters)
  {
    && (forall i, j :: 0 <= i < |p.weights| && 0 <= j < |p.weights[i]| ==> p.weights[i][j] == 0.0)
    && (forall i :: 0 <= i < |p.visible| ==> p.visible[i] == 0.0)
    && (forall j :: 0 <= j < |p.hidden| ==> p.hidden[j] == 0.0)
  }

  lemma ExponentZero(p: Parameters, v: seq<real>, h: seq<real>)
    requires ZeroParameters(p)
    ensures Exponent(p, v, h) == 0.0
  {
    forall i: nat
      ensures Sum(|p.hidden|, CouplingTerms(p, v, h, i)) == 0.0
    {
      SumConst(|p.hidden|, 0.0, CouplingTerms(p, v, h, i));
    }
    SumConst(|p.visible|, 0.0, CouplingRows(p, v, h));
    SumConst(|p.visible|, 0.0, VisibleTerms(p, v));
    SumConst(|p.hidden|, 0.0, HiddenTerms(p, h));
  }

  lemma MarginalZero(p: Parameters, exp: real -> real, v: seq<real>)
    requires ZeroParameters(p) && IsExp(exp)
    ensures Marginal(p, exp, v) == Pow2(|p.hidden|) as real
  {
    forall hj: nat
      ensures HiddenWeights(p, exp, v)(hj) == 1.0
    {
      ExponentZero(p, v, Config(hj, |p.visible|));
    }
    SumConst(Pow2(|p.hidden|), 1.0, HiddenWeights(p, exp, v));
  }

  lemma MarginalsZero(p: Parameters, exp: real -> real)
    requires ZeroParameters(p) && IsExp(exp)
    ensures forall vi: nat :: Marginals(p, exp)(vi) == Pow2(|p.hidden|) as real
  {
    forall vi: nat
      ensures Marginals(p, exp)(vi) == Pow2(|p.hidden|) as real
    {
      MarginalZero(p, exp, Config(vi, |p.visible|));
    }
  }

  /** ... so the visible marginal is uniform. */
  lemma PvZero(p: Parameters, exp: real -> real, v: seq<real>)
    requires ZeroParameters(p) && IsExp(exp)
    ensures Pv(p, exp, v, PartitionFunction(p, exp)) == 1.0 / Pow2(|p.visible|) as real
  {
    MarginalsZero(p, exp);
    MarginalZero(p, exp, v);
    UniformNormalised(Pow2(|p.visible|), Marginals(p, exp), Pow2(|p.hidden|) as real,
                      PartitionFunction(p, exp), Marginal(p, exp, v));
  }

  /** ... and every hidden unit is on with probability 1/2. */
  lemma HidProbZero(p: Parameters, exp: real -> real, v: seq<real>, j: nat)
    requires ZeroParameters(p) && IsExp(exp)
    ensures HidProb(p, exp, v, j) == 0.5
  {
    SumConst(|p.visible|, 0.0, InputTerms(p, v, j));
  }

  lemma HidProbsZero(p: Parameters, exp: real -> real, j: nat)
    requires ZeroParameters(p) && IsExp(exp)
    ensures forall k: nat :: k < Pow2(|p.visible|) ==> HidProbs(p, exp, j)(k) == 0.5
  {
    forall k: nat | k < Pow2(|p.visible|)
      ensures HidProbs(p, exp, j)(k) == 0.5
    {
      HidProbZero(p, exp, Config(k, |p.visible|), j);
    }
  }

  lemma PvTermsZero(p: Parameters, exp: real -> real)
    requires ZeroParameters(p) && IsExp(exp)
    ensures forall k: nat :: k < Pow2(|p.visible|) ==>
              PvTerms(p, exp, PartitionFunction(p, exp))(k) == 1.0 / Pow2(|p.visible|) as real
  {
    forall k: nat | k < Pow2(|p.visible|)
      ensures PvTerms(p, exp, PartitionFunction(p, exp))(k) == 1.0 / Pow2(|p.visible|) as real
    {
      PvZero(p, exp, Config(k, |p.visible|));
    }
  }

  /** Visible unit i (i < n) is on in 2^(n-1) of the 2^n configurations. */
  lemma VisibleUnitCount(p: Parameters, i: nat)
    requires i < |p.visible|
    ensures Sum(Pow2(|p.visible|), VisibleUnit(p, i)) == (Pow2(|p.visible|) / 2) as real
  {
    var n := |p.visible|;
    forall k: nat | k < Pow2(n)
      ensures VisibleUnit(p, i)(k) == BitIndicator(i)(k)
    {
    }
    SumExt(Pow2(n), VisibleUnit(p, i), BitIndicator(i));
    BitCountIndicator(n, i);
    assert Pow2(n) == 2 * Pow2(n - 1);
  }

  /** With all weights and biases zero, every entry of the expectation is
      exactly 1/4: v_i is on in half of the configurations, each of
      probability 1/2^n, and h_j is on with probability 1/2. */
  lemma ZeroParametersQuarter(p: Parameters, exp: real -> real, i: nat, j: nat)
    requires ZeroParameters(p) && IsExp(exp) && i < |p.visible|
    ensures Sum(Pow2(|p.visible|), ExpectationTerms(p, exp, PartitionFunction(p, exp), i, j)) == 0.25
  {
    var size := Pow2(|p.visible|);
    assert size == 2 * Pow2(|p.visible| - 1);
    HidProbsZero(p, exp, j);
    PvTermsZero(p, exp);
    VisibleUnitCount(p, i);
    QuarterOfProduct(size, VisibleUnit(p, i), HidProbs(p, exp, j), PvTerms(p, exp, PartitionFunction(p, exp)));
  }

  /** Every cell of the estimate of a supported machine with zero
      parameters is 1/4. */
  lemma ZeroMachineQuarter(p: Parameters, exp: real -> real)
    requires Supported(p) && ZeroParameters(p) && IsExp(exp)
    ensures var r := EstimateModel(p, exp);
            r.Ok? && forall i, j :: 0 <= i < |p.visible| && 0 <= j < |p.hidden| ==> r.value[i][j] == 0.25
  {
    forall i, j | 0 <= i < |p.visible| && 0 <= j < |p.hidden|
      ensures Expectation(p, exp, PartitionFunction(p, exp))[i][j] == 0.25
    {
      ZeroParametersQuarter(p, exp, i, j);
    }
  }

  /** The concrete scenario: a freshly built machine of any supported size
      with zero weights estimates 1/4 in every cell. */
  lemma FreshZeroMachineQuarter(size: nat, exp: real -> real)
    requires size in {8, 10, 16, 32} && IsExp(exp)
    ensures var p := NewParameters(size, size, (i: nat, j: nat) => 0.0);
            var r := EstimateModel(p, exp);
            r.Ok? && |r.value| == size &&
            forall i, j :: 0 <= i < size && 0 <= j < size ==> r.value[i][j] == 0.25
  {
    var p := NewParameters(size, size, (i: nat, j: nat) => 0.0);
    assert Supported(p);
    ZeroMachineQuarter(p, exp);
  }
}
