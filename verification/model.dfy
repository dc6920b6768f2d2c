/** The parameter record shared by every estimator (model.py): a weight
    matrix with one row per visible unit and one column per hidden unit, and
    one bias per unit. */
module Model {
  import opened Outcomes
  import opened Utils

  datatype Parameters = Parameters(weights: Matrix, visible: seq<real>, hidden: seq<real>)
  {
    /** The shape invariant: |visible| rows of |hidden| weights each. */
    predicate Valid()
    {
      && |weights| == |visible|
      && forall i :: 0 <= i < |weights| ==> |weights[i]| == |hidden|
    }

    /** Weight W[i][j], or 0 outside the matrix. */
    function W(i: nat, j: nat): real
    {
      if i < |weights| && j < |weights[i]| then weights[i][j] else 0.0
    }

    /** Visible bias b_v[i], or 0 outside the vector. */
    function Bv(i: nat): real
    {
      if i < |visible| then visible[i] else 0.0
    }

    /** Hidden bias b_h[j], or 0 outside the vector. */
    function Bh(j: nat): real
    {
      if j < |hidden| then hidden[j] else 0.0
    }
  }

  /** `Model.__init__(visible_size, hidden_size, generator)`: the weights
      are drawn from the generator (abstracted as `draw`), both bias vectors
      start at zero. */
  function NewParameters(visibleSize: nat, hiddenSize: nat, draw: (nat, nat) -> real): (p: Parameters)
    ensures p.Valid()
    ensures |p.visible| == visibleSize && |p.hidden| == hiddenSize
    ensures forall i :: 0 <= i < visibleSize ==> p.visible[i] == 0.0
    ensures forall j :: 0 <= j < hiddenSize ==> p.hidden[j] == 0.0
    ensures forall i, j :: 0 <= i < visibleSize && 0 <= j < hiddenSize ==> p.weights[i][j] == draw(i, j)
  {
    Parameters(
      seq(visibleSize, (i: nat) => seq(hiddenSize, (j: nat) => draw(i, j))),
      seq(visibleSize, _ => 0.0),
      seq(hiddenSize, _ => 0.0))
  }

  /** The base class's `estimate_model`: always raises, never yields a matrix. */
  function BaseEstimateModel(p: Parameters): (r: Result<Matrix>)
    ensures r.Err? && r.error == NotEstimable
  {
    Err(NotEstimable)
  }
}
