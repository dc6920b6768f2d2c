/** The quantum-annealing estimator (model_dwave.py) without the annealer:
    the translation of the RBM parameters into an Ising problem of fields
    and couplings, the conversion of the returned spins back into 0/1 unit
    states, and the averaging of the reads into the estimate.

    Units are labelled `V(i)` and `H(j)` where the program formats the
    strings "v_i" and "h_j". */
module DWave {
  import opened Outcomes
  import opened Sums
  import opened Utils
  import opened Model
  import opened Analytical

  datatype Label = V(index: nat) | H(index: nat)

  /** An Ising problem: a field per unit and a coupling per
      (visible, hidden) pair. */
  datatype Ising = Ising(field: map<Label, real>, coupling: map<(Label, Label), real>)

  /** A map entry, or 0 for an absent key. */
  function Get<K>(m: map<K, real>, k: K): real
  {
    if k in m then m[k] else 0.0
  }

  // ---------------------------------------------------------------------
  // generate_couplings
  // ---------------------------------------------------------------------

  /** The labels of n visible and m hidden units. */
  function Units(n: nat, m: nat): (u: set<Label>)
    ensures forall l :: l in u <==> (l.V? && l.index < n) || (l.H? && l.index < m)
  {
    (set i: nat | i < n :: V(i)) + (set j: nat | j < m :: H(j))
  }

  /** Every (visible, hidden) pair of labels. */
  function UnitPairs(n: nat, m: nat): (u: set<(Label, Label)>)
    ensures forall l :: l in u <==> l.0.V? && l.1.H? && l.0.index < n && l.1.index < m
  {
    set i: nat, j: nat | i < n && j < m :: (V(i), H(j))
  }

  /** W[i][j] / 4 along row i. */
  function QuarterRow(p: Parameters, i: nat): nat -> real
  {
    (j: nat) => p.W(i, j) / 4.0
  }

  /** W[i][j] / 4 down column j. */
  function QuarterColumn(p: Parameters, j: nat): nat -> real
  {
    (i: nat) => p.W(i, j) / 4.0
  }

  /** The field of one unit. A visible field starts at -b_v[i] / 2 and has
      W[i][j] / 4 subtracted for every hidden j; a hidden field starts at
      -b_h[j] / 2 and has W[i][j] / 4 subtracted for the first `rows` rows i;
      both are then divided by beta. */
  function Field(p: Parameters, beta: real, rows: nat, l: Label): (f: real)
    requires beta != 0.0
    ensures l.V? ==> f == (-p.Bv(l.index) / 2.0 - Sum(|p.hidden|, QuarterRow(p, l.index))) / beta
    ensures l.H? ==> f == (-p.Bh(l.index) / 2.0 - Sum(rows, QuarterColumn(p, l.index))) / beta
  {
    match l
    case V(i) =>
      DeductIsSum(-p.Bv(i) / 2.0, |p.hidden|, QuarterRow(p, i));
      Deduct(-p.Bv(i) / 2.0, |p.hidden|, QuarterRow(p, i)) / beta
    case H(j) =>
      DeductIsSum(-p.Bh(j) / 2.0, rows, QuarterColumn(p, j));
      Deduct(-p.Bh(j) / 2.0, rows, QuarterColumn(p, j)) / beta
  }

  /** `h_mag`: one field per unit. */
  function Fields(p: Parameters, beta: real, rows: nat): (f: map<Label, real>)
    requires beta != 0.0
    ensures f.Keys == Units(|p.visible|, |p.hidden|)
    ensures forall l :: l in f ==> f[l] == Field(p, beta, rows, l)
  {
    map l | l in Units(|p.visible|, |p.hidden|) :: Field(p, beta, rows, l)
  }

  /** The coupling of a (visible, hidden) pair: -W[i][j] / 4, divided by
      beta, so that multiplying beta back in recovers minus a quarter of the
      weight. */
  function Coupling(p: Parameters, beta: real, l: (Label, Label)): (c: real)
    requires beta != 0.0
    ensures beta * c == -p.W(l.0.index, l.1.index) / 4.0
  {
    -p.W(l.0.index, l.1.index) / 4.0 / beta
  }

  /** At a positive beta, a positive weight, which favours both units on,
      becomes a negative coupling, which favours aligned spins, and the
      converse. */
  lemma CouplingSign(p: Parameters, beta: real, l: (Label, Label))
    requires 0.0 < beta
    ensures Coupling(p, beta, l) < 0.0 <==> 0.0 < p.W(l.0.index, l.1.index)
  {
    var c := Coupling(p, beta, l);
    assert beta * c == -p.W(l.0.index, l.1.index) / 4.0;
    if c < 0.0 {
      assert beta * c < 0.0;
    } else {
      assert 0.0 <= beta * c;
    }
  }

  /** `j_couplings`: one coupling for every (visible, hidden) pair. */
  function Couplings(p: Parameters, beta: real): (c: map<(Label, Label), real>)
    requires beta != 0.0
    ensures c.Keys == UnitPairs(|p.visible|, |p.hidden|)
    ensures forall l :: l in c ==> c[l] == Coupling(p, beta, l)
  {
    map l | l in UnitPairs(|p.visible|, |p.hidden|) :: Coupling(p, beta, l)
  }

  /** `generate_couplings(beta)` as written: the hidden-field loop runs its
      row index over `range(len(self.hidden))`, so it reads past the weight
      matrix when there are more hidden than visible units, and otherwise
      sums only the first |hidden| rows of each column. */
  function GenerateCouplings(p: Parameters, beta: real): (r: Result<Ising>)
    requires p.Valid() && beta != 0.0
    ensures r.Ok? <==> |p.hidden| <= |p.visible|
    ensures r.Err? ==> r.error == IndexOutOfRange
    ensures r.Ok? ==> r.value.field.Keys == Units(|p.visible|, |p.hidden|)
    ensures r.Ok? ==> r.value.coupling.Keys == UnitPairs(|p.visible|, |p.hidden|)
    ensures r.Ok? ==> forall l :: l in r.value.field ==> r.value.field[l] == Field(p, beta, |p.hidden|, l)
    ensures r.Ok? ==> forall l :: l in r.value.coupling ==> r.value.coupling[l] == Coupling(p, beta, l)
  {
    if |p.hidden| > |p.visible| then Err(IndexOutOfRange)
    else Ok(Ising(Fields(p, beta, |p.hidden|), Couplings(p, beta)))
  }

  /** The translation with each hidden field summing its whole weight
      column, over every visible row. */
  function GenerateCouplingsIntended(p: Parameters, beta: real): (r: Ising)
    requires p.Valid() && beta != 0.0
    ensures r.field.Keys == Units(|p.visible|, |p.hidden|)
    ensures r.coupling.Keys == UnitPairs(|p.visible|, |p.hidden|)
    ensures forall l :: l in r.field ==> r.field[l] == Field(p, beta, |p.visible|, l)
    ensures forall l :: l in r.coupling ==> r.coupling[l] == Coupling(p, beta, l)
  {
    Ising(Fields(p, beta, |p.visible|), Couplings(p, beta))
  }

  // ---------------------------------------------------------------------
  // Spins and energies
  // ---------------------------------------------------------------------

  /** The sampler's spin -1 / +1 as a unit state: s / 2 + 0.5. */
  function SpinToBit(spin: real): (b: real)
    ensures spin == -1.0 ==> b == 0.0
    ensures spin == 1.0 ==> b == 1.0
  {
    spin / 2.0 + 0.5
  }

  /** The inverse conversion, from a unit state to a spin. */
  function BitToSpin(b: real): real
  {
    2.0 * b - 1.0
  }

  lemma SpinBitRoundTrip(spin: real, b: real)
    ensures BitToSpin(SpinToBit(spin)) == spin
    ensures SpinToBit(BitToSpin(b)) == b
  {
  }

  /** Spins as unit states, entry by entry. */
  function SpinsToBits(s: seq<real>): (v: seq<real>)
    ensures |v| == |s|
    ensures forall i :: 0 <= i < |s| ==> v[i] == SpinToBit(s[i])
  {
    seq(|s|, (i: nat) requires i < |s| => SpinToBit(s[i]))
  }

  /** The converted row is a row of 0/1 unit states exactly when the
      sampler's row is a row of -1/+1 spins. */
  lemma SpinRowStates(s: seq<real>)
    ensures (forall i :: 0 <= i < |s| ==> s[i] == -1.0 || s[i] == 1.0)
            <==> (forall i :: 0 <= i < |s| ==> SpinsToBits(s)[i] == 0.0 || SpinsToBits(s)[i] == 1.0)
  {
    forall i | 0 <= i < |s|
      ensures (s[i] == -1.0 || s[i] == 1.0) <==> (SpinsToBits(s)[i] == 0.0 || SpinsToBits(s)[i] == 1.0)
    {
      assert SpinsToBits(s)[i] == s[i] / 2.0 + 0.5;
    }
  }

  /** Unit states as spins, entry by entry. */
  function BitsToSpins(v: seq<real>): (s: seq<real>)
    ensures |s| == |v|
  {
    seq(|v|, (i: nat) requires i < |v| => BitToSpin(v[i]))
  }

  /** The two row conversions are inverse to each other. */
  lemma SpinsBitsRoundTrip(s: seq<real>, v: seq<real>)
    ensures BitsToSpins(SpinsToBits(s)) == s
    ensures SpinsToBits(BitsToSpins(v)) == v
  {
    assert forall i :: 0 <= i < |s| ==> BitsToSpins(SpinsToBits(s))[i] == BitToSpin(SpinToBit(s[i])) == s[i];
    assert forall i :: 0 <= i < |v| ==> SpinsToBits(BitsToSpins(v))[i] == SpinToBit(BitToSpin(v[i])) == v[i];
  }

  // Scalar identities used by the energy proofs.

  /** Expanding a product of two spin-to-bit conversions (s+1)/2, (t+1)/2
      against a weight w. */
  lemma SpinProduct(a: real, b: real, w: real)
    ensures (a / 2.0 + 0.5) * (b / 2.0 + 0.5) * w == a * b * (w / 4.0) + a * (w / 4.0) + b * (w / 4.0) + w / 4.0
  {
  }

  /** A bias against a converted spin: half of it follows the spin. */
  lemma BiasSplit(bias: real, a: real)
    ensures bias * (a / 2.0 + 0.5) == a * (bias / 2.0) + bias / 2.0
  {
  }

  lemma Distribute(a: real, x: real, y: real)
    ensures a * x + a * y == a * (x + y)
  {
  }

  /** A field (-b/2 - r)/beta against spin a is -1/beta times a(b/2 + r). */
  lemma FieldEnergy(beta: real, a: real, b: real, r: real)
    requires beta != 0.0
    ensures ((-b / 2.0 - r) / beta) * a == (-1.0 / beta) * (a * (b / 2.0 + r))
  {
    var x := b / 2.0 + r;
    assert -b / 2.0 - r == -x;
    assert (-x) / beta == (-1.0 / beta) * x;
  }

  /** A coupling -w/4/beta against spins a, b is -1/beta times ab(w/4). */
  lemma CouplingEnergy(beta: real, a: real, b: real, w: real)
    requires beta != 0.0
    ensures (-w / 4.0 / beta) * a * b == (-1.0 / beta) * (a * b * (w / 4.0))
  {
    assert -w / 4.0 / beta == (-1.0 / beta) * (w / 4.0);
  }

  lemma Rearrange4(a: real, b: real, c: real, d: real)
    ensures (a * b) * c * d == a * (b * c * d)
  {
  }

  lemma Associate(a: real, b: real, c: real)
    ensures (a * b) * c == a * (b * c)
  {
  }

  /** The fields of the visible units, the fields of the hidden units and
      the couplings of an Ising problem, indexed by unit number; an absent
      label reads as 0. */
  function VisibleFields(ising: Ising): nat -> real
  {
    (i: nat) => Get(ising.field, V(i))
  }

  function HiddenFields(ising: Ising): nat -> real
  {
    (j: nat) => Get(ising.field, H(j))
  }

  function CouplingGrid(ising: Ising): nat -> nat -> real
  {
    (i: nat) => (j: nat) => Get(ising.coupling, (V(i), H(j)))
  }

  function FieldTerms(h: nat -> real, s: seq<real>): nat -> real
  {
    (i: nat) => h(i) * At(s, i)
  }

  function CouplingEnergyTerms(J: nat -> nat -> real, s: seq<real>, t: seq<real>, i: nat): nat -> real
  {
    (j: nat) => J(i)(j) * At(s, i) * At(t, j)
  }

  function CouplingEnergyRows(J: nat -> nat -> real, s: seq<real>, t: seq<real>): nat -> real
  {
    (i: nat) => Sum(|t|, CouplingEnergyTerms(J, s, t, i))
  }

  /** The energy of visible spins s and hidden spins t under fields hv, hh
      and couplings J: every field times its unit's spin plus every coupling
      times its pair's spins. */
  function SpinEnergy(hv: nat -> real, hh: nat -> real, J: nat -> nat -> real, s: seq<real>, t: seq<real>): real
  {
    Total3(|s|, FieldTerms(hv, s), |t|, FieldTerms(hh, t), |s|, CouplingEnergyRows(J, s, t))
  }

  /** The Ising energy of an Ising problem at spins s, t. */
  function IsingEnergy(ising: Ising, s: seq<real>, t: seq<real>): real
  {
    SpinEnergy(VisibleFields(ising), HiddenFields(ising), CouplingGrid(ising), s, t)
  }

  // The RBM exponent rewritten in spins: a pair part, a part linear in the
  // visible spins, a part linear in the hidden spins, and a constant.

  function PairTerms(p: Parameters, s: seq<real>, t: seq<real>, i: nat): nat -> real
  {
    (j: nat) => At(s, i) * At(t, j) * (p.W(i, j) / 4.0)
  }

  function PairRows(p: Parameters, s: seq<real>, t: seq<real>): nat -> real
  {
    (i: nat) => Sum(|p.hidden|, PairTerms(p, s, t, i))
  }

  function RowQuarters(p: Parameters): nat -> real
  {
    (i: nat) => Sum(|p.hidden|, QuarterRow(p, i))
  }

  function VisibleLinear(p: Parameters, s: seq<real>): nat -> real
  {
    (i: nat) => At(s, i) * (p.Bv(i) / 2.0 + Sum(|p.hidden|, QuarterRow(p, i)))
  }

  function HiddenLinear(p: Parameters, t: seq<real>): nat -> real
  {
    (j: nat) => At(t, j) * (p.Bh(j) / 2.0 + Sum(|p.visible|, QuarterColumn(p, j)))
  }

  function HalfVisibleBias(p: Parameters): nat -> real
  {
    (i: nat) => p.Bv(i) / 2.0
  }

  function HalfHiddenBias(p: Parameters): nat -> real
  {
    (j: nat) => p.Bh(j) / 2.0
  }

  /** The configuration-independent constant C = -sum W / 4 - sum b_v / 2
      - sum b_h / 2 that separates the RBM energy from beta times the
      Ising energy. */
  function EnergyOffset(p: Parameters): real
  {
    -(Sum(|p.visible|, RowQuarters(p)) + Sum(|p.visible|, HalfVisibleBias(p)) + Sum(|p.hidden|, HalfHiddenBias(p)))
  }

  // Pieces of the exponent under v = (s + 1) / 2, h = (t + 1) / 2.

  function SpinRowQuarters(p: Parameters, s: seq<real>): nat -> real
  {
    (i: nat) => At(s, i) * Sum(|p.hidden|, QuarterRow(p, i))
  }

  function SpinColumn(p: Parameters, t: seq<real>, i: nat): nat -> real
  {
    (j: nat) => At(t, j) * (p.W(i, j) / 4.0)
  }

  function SpinColumnGrid(p: Parameters, t: seq<real>): nat -> nat -> real
  {
    (i: nat) => SpinColumn(p, t, i)
  }

  function SpinColumnRows(p: Parameters, t: seq<real>): nat -> real
  {
    (i: nat) => Sum(|p.hidden|, SpinColumn(p, t, i))
  }

  function SpinRowGrid(p: Parameters, t: seq<real>): nat -> nat -> real
  {
    (j: nat) => Scaled(At(t, j), QuarterColumn(p, j))
  }

  function SpinColumnQuarters(p: Parameters, t: seq<real>): nat -> real
  {
    (j: nat) => At(t, j) * Sum(|p.visible|, QuarterColumn(p, j))
  }

  function SpinHalfVisibleBias(p: Parameters, s: seq<real>): nat -> real
  {
    (i: nat) => At(s, i) * (p.Bv(i) / 2.0)
  }

  function SpinHalfHiddenBias(p: Parameters, t: seq<real>): nat -> real
  {
    (j: nat) => At(t, j) * (p.Bh(j) / 2.0)
  }

  /** One (visible, hidden) pair of the coupling sum, expanded in spins. */
  lemma CouplingTermSplit(p: Parameters, s: seq<real>, t: seq<real>, i: nat, j: nat)
    requires i < |s| && j < |t|
    ensures CouplingTerms(p, SpinsToBits(s), SpinsToBits(t), i)(j)
            == PairTerms(p, s, t, i)(j) + Scaled(At(s, i), QuarterRow(p, i))(j)
               + SpinColumn(p, t, i)(j) + QuarterRow(p, i)(j)
  {
    SpinProduct(At(s, i), At(t, j), p.W(i, j));
  }

  /** One row of the coupling sum, expanded in spins. */
  lemma CouplingRowSplit(p: Parameters, s: seq<real>, t: seq<real>, i: nat)
    requires i < |s| == |p.visible| && |t| == |p.hidden|
    ensures CouplingRows(p, SpinsToBits(s), SpinsToBits(t))(i)
            == PairRows(p, s, t)(i) + SpinRowQuarters(p, s)(i) + SpinColumnRows(p, t)(i) + RowQuarters(p)(i)
  {
    CouplingRowSum(p, s, t, i);
    SpinRowQuarter(p, s, i);
  }

  lemma SpinRowQuarter(p: Parameters, s: seq<real>, i: nat)
    ensures SpinRowQuarters(p, s)(i) == Sum(|p.hidden|, Scaled(At(s, i), QuarterRow(p, i)))
  {
    SumScale(|p.hidden|, At(s, i), QuarterRow(p, i), Scaled(At(s, i), QuarterRow(p, i)));
  }

  lemma CouplingRowSum(p: Parameters, s: seq<real>, t: seq<real>, i: nat)
    requires i < |s| == |p.visible| && |t| == |p.hidden|
    ensures Sum(|p.hidden|, CouplingTerms(p, SpinsToBits(s), SpinsToBits(t), i))
            == Sum(|p.hidden|, PairTerms(p, s, t, i)) + Sum(|p.hidden|, Scaled(At(s, i), QuarterRow(p, i)))
               + Sum(|p.hidden|, SpinColumn(p, t, i)) + Sum(|p.hidden|, QuarterRow(p, i))
  {
    forall j: nat | j < |p.hidden|
      ensures CouplingTerms(p, SpinsToBits(s), SpinsToBits(t), i)(j)
              == PairTerms(p, s, t, i)(j) + Scaled(At(s, i), QuarterRow(p, i))(j)
                 + SpinColumn(p, t, i)(j) + QuarterRow(p, i)(j)
    {
      CouplingTermSplit(p, s, t, i, j);
    }
    SumAdd4(|p.hidden|, PairTerms(p, s, t, i), Scaled(At(s, i), QuarterRow(p, i)), SpinColumn(p, t, i),
            QuarterRow(p, i), CouplingTerms(p, SpinsToBits(s), SpinsToBits(t), i));
  }

  lemma CouplingSplit(p: Parameters, s: seq<real>, t: seq<real>)
    requires |s| == |p.visible| && |t| == |p.hidden|
    ensures Sum(|p.visible|, CouplingRows(p, SpinsToBits(s), SpinsToBits(t)))
            == Sum(|p.visible|, PairRows(p, s, t)) + Sum(|p.visible|, SpinRowQuarters(p, s))
               + Sum(|p.visible|, SpinColumnRows(p, t)) + Sum(|p.visible|, RowQuarters(p))
  {
    forall i: nat | i < |p.visible|
      ensures CouplingRows(p, SpinsToBits(s), SpinsToBits(t))(i)
              == PairRows(p, s, t)(i) + SpinRowQuarters(p, s)(i) + SpinColumnRows(p, t)(i) + RowQuarters(p)(i)
    {
      CouplingRowSplit(p, s, t, i);
    }
    SumAdd4(|p.visible|, PairRows(p, s, t), SpinRowQuarters(p, s), SpinColumnRows(p, t), RowQuarters(p),
            CouplingRows(p, SpinsToBits(s), SpinsToBits(t)));
  }

  /** The hidden spins' share of the coupling sum, regrouped by column. */
  lemma SpinColumnSwap(p: Parameters, t: seq<real>)
    ensures Sum(|p.visible|, SpinColumnRows(p, t)) == Sum(|p.hidden|, SpinColumnQuarters(p, t))
  {
    forall j: nat | j < |p.hidden|
      ensures SpinColumnQuarters(p, t)(j) == Sum(|p.visible|, SpinRowGrid(p, t)(j))
    {
      SumScale(|p.visible|, At(t, j), QuarterColumn(p, j), Scaled(At(t, j), QuarterColumn(p, j)));
    }
    SumSwap(|p.visible|, |p.hidden|, SpinColumnGrid(p, t), SpinRowGrid(p, t),
            SpinColumnRows(p, t), SpinColumnQuarters(p, t));
  }

  lemma VisibleBiasSplit(p: Parameters, s: seq<real>)
    requires |s| == |p.visible|
    ensures Sum(|p.visible|, VisibleTerms(p, SpinsToBits(s)))
            == Sum(|p.visible|, SpinHalfVisibleBias(p, s)) + Sum(|p.visible|, HalfVisibleBias(p))
  {
    forall i: nat | i < |p.visible|
      ensures VisibleTerms(p, SpinsToBits(s))(i) == SpinHalfVisibleBias(p, s)(i) + HalfVisibleBias(p)(i)
    {
      BiasSplit(p.Bv(i), At(s, i));
    }
    SumAdd(|p.visible|, SpinHalfVisibleBias(p, s), HalfVisibleBias(p), VisibleTerms(p, SpinsToBits(s)));
  }

  lemma HiddenBiasSplit(p: Parameters, t: seq<real>)
    requires |t| == |p.hidden|
    ensures Sum(|p.hidden|, HiddenTerms(p, SpinsToBits(t)))
            == Sum(|p.hidden|, SpinHalfHiddenBias(p, t)) + Sum(|p.hidden|, HalfHiddenBias(p))
  {
    forall j: nat | j < |p.hidden|
      ensures HiddenTerms(p, SpinsToBits(t))(j) == SpinHalfHiddenBias(p, t)(j) + HalfHiddenBias(p)(j)
    {
      BiasSplit(p.Bh(j), At(t, j));
    }
    SumAdd(|p.hidden|, SpinHalfHiddenBias(p, t), HalfHiddenBias(p), HiddenTerms(p, SpinsToBits(t)));
  }

  lemma VisibleLinearSplit(p: Parameters, s: seq<real>)
    ensures Sum(|p.visible|, VisibleLinear(p, s))
            == Sum(|p.visible|, SpinHalfVisibleBias(p, s)) + Sum(|p.visible|, SpinRowQuarters(p, s))
  {
    forall i: nat | i < |p.visible|
      ensures VisibleLinear(p, s)(i) == SpinHalfVisibleBias(p, s)(i) + SpinRowQuarters(p, s)(i)
    {
      Distribute(At(s, i), p.Bv(i) / 2.0, Sum(|p.hidden|, QuarterRow(p, i)));
    }
    SumAdd(|p.visible|, SpinHalfVisibleBias(p, s), SpinRowQuarters(p, s), VisibleLinear(p, s));
  }

  lemma HiddenLinearSplit(p: Parameters, t: seq<real>)
    ensures Sum(|p.hidden|, HiddenLinear(p, t))
            == Sum(|p.hidden|, SpinHalfHiddenBias(p, t)) + Sum(|p.hidden|, SpinColumnQuarters(p, t))
  {
    forall j: nat | j < |p.hidden|
      ensures HiddenLinear(p, t)(j) == SpinHalfHiddenBias(p, t)(j) + SpinColumnQuarters(p, t)(j)
    {
      Distribute(At(t, j), p.Bh(j) / 2.0, Sum(|p.visible|, QuarterColumn(p, j)));
    }
    SumAdd(|p.hidden|, SpinHalfHiddenBias(p, t), SpinColumnQuarters(p, t), HiddenLinear(p, t));
  }

  /** The RBM exponent at v = (s + 1) / 2, h = (t + 1) / 2: a pair part, a
      part linear in the visible spins, one linear in the hidden spins, and
      the constant -C. */
  lemma ExponentInSpins(p: Parameters, s: seq<real>, t: seq<real>)
    requires |s| == |p.visible| && |t| == |p.hidden|
    ensures Exponent(p, SpinsToBits(s), SpinsToBits(t))
            == Sum(|p.visible|, PairRows(p, s, t)) + Sum(|p.visible|, VisibleLinear(p, s))
               + Sum(|p.hidden|, HiddenLinear(p, t)) - EnergyOffset(p)
  {
    CouplingSplit(p, s, t);
    SpinColumnSwap(p, t);
    VisibleBiasSplit(p, s);
    HiddenBiasSplit(p, t);
    VisibleLinearSplit(p, s);
    HiddenLinearSplit(p, t);
  }

  // The Ising energy of a translated problem, term by term.

  /** Visible fields, indexed by unit number, that agree with the
      translation. */
  predicate VisibleAgree(p: Parameters, beta: real, rows: nat, hv: nat -> real)
    requires beta != 0.0
  {
    forall i: nat :: i < |p.visible| ==> hv(i) == Field(p, beta, rows, V(i))
  }

  /** Hidden fields that agree with the translation whose hidden fields sum
      `rows` rows. */
  predicate HiddenAgree(p: Parameters, beta: real, rows: nat, hh: nat -> real)
    requires beta != 0.0
  {
    forall j: nat :: j < |p.hidden| ==> hh(j) == Field(p, beta, rows, H(j))
  }

  predicate CouplingsAgree(p: Parameters, beta: real, J: nat -> nat -> real)
    requires beta != 0.0
  {
    forall i: nat, j: nat :: i < |p.visible| && j < |p.hidden| ==> J(i)(j) == Coupling(p, beta, (V(i), H(j)))
  }

  predicate Translates(p: Parameters, beta: real, rows: nat, hv: nat -> real, hh: nat -> real, J: nat -> nat -> real)
    requires beta != 0.0
  {
    VisibleAgree(p, beta, rows, hv) && HiddenAgree(p, beta, rows, hh) && CouplingsAgree(p, beta, J)
  }

  /** Reading a translated problem back by unit number gives the
      translation's values. */
  lemma Lookups(p: Parameters, beta: real, rows: nat, r: Ising)
    requires beta != 0.0
    requires r.field.Keys == Units(|p.visible|, |p.hidden|)
    requires r.coupling.Keys == UnitPairs(|p.visible|, |p.hidden|)
    requires forall l :: l in r.field ==> r.field[l] == Field(p, beta, rows, l)
    requires forall l :: l in r.coupling ==> r.coupling[l] == Coupling(p, beta, l)
    ensures Translates(p, beta, rows, VisibleFields(r), HiddenFields(r), CouplingGrid(r))
  {
    forall i: nat | i < |p.visible|
      ensures VisibleFields(r)(i) == Field(p, beta, rows, V(i))
    {
      assert V(i) in Units(|p.visible|, |p.hidden|);
    }
    forall j: nat | j < |p.hidden|
      ensures HiddenFields(r)(j) == Field(p, beta, rows, H(j))
    {
      assert H(j) in Units(|p.visible|, |p.hidden|);
    }
    forall i: nat, j: nat | i < |p.visible| && j < |p.hidden|
      ensures CouplingGrid(r)(i)(j) == Coupling(p, beta, (V(i), H(j)))
    {
      assert (V(i), H(j)) in UnitPairs(|p.visible|, |p.hidden|);
    }
  }

  /** Dividing by beta and multiplying back. */
  lemma FieldScale(p: Parameters, beta: real, rows: nat, l: Label)
    requires beta != 0.0
    ensures Field(p, 1.0, rows, l) == beta * Field(p, beta, rows, l)
  {
    DivFacts(Field(p, 1.0, rows, l), beta);
  }

  lemma CouplingScale(p: Parameters, beta: real, l: (Label, Label))
    requires beta != 0.0
    ensures Coupling(p, 1.0, l) == beta * Coupling(p, beta, l)
  {
    DivFacts(Coupling(p, 1.0, l), beta);
  }

  /** Scaling every field by beta scales each field term by beta. */
  lemma FieldTermsScale(beta: real, h: nat -> real, h1: nat -> real, s: seq<real>)
    requires forall i: nat :: i < |s| ==> h1(i) == beta * h(i)
    ensures forall i: nat :: i < |s| ==> FieldTerms(h1, s)(i) == beta * FieldTerms(h, s)(i)
  {
    forall i: nat | i < |s|
      ensures FieldTerms(h1, s)(i) == beta * FieldTerms(h, s)(i)
    {
      Associate(beta, h(i), At(s, i));
    }
  }

  lemma CouplingRowScale(beta: real, J: nat -> nat -> real, J1: nat -> nat -> real, s: seq<real>, t: seq<real>, i: nat)
    requires forall j: nat :: j < |t| ==> J1(i)(j) == beta * J(i)(j)
    ensures CouplingEnergyRows(J1, s, t)(i) == beta * CouplingEnergyRows(J, s, t)(i)
  {
    forall j: nat | j < |t|
      ensures CouplingEnergyTerms(J1, s, t, i)(j) == beta * CouplingEnergyTerms(J, s, t, i)(j)
    {
      Rearrange4(beta, J(i)(j), At(s, i), At(t, j));
    }
    SumScale(|t|, beta, CouplingEnergyTerms(J, s, t, i), CouplingEnergyTerms(J1, s, t, i));
  }

  /** Scaling every coupling by beta scales each row of the coupling energy by beta. */
  lemma CouplingRowsScale(beta: real, J: nat -> nat -> real, J1: nat -> nat -> real, s: seq<real>, t: seq<real>)
    requires forall i: nat, j: nat :: i < |s| && j < |t| ==> J1(i)(j) == beta * J(i)(j)
    ensures forall i: nat :: i < |s| ==> CouplingEnergyRows(J1, s, t)(i) == beta * CouplingEnergyRows(J, s, t)(i)
  {
    forall i: nat | i < |s|
      ensures CouplingEnergyRows(J1, s, t)(i) == beta * CouplingEnergyRows(J, s, t)(i)
    {
      CouplingRowScale(beta, J, J1, s, t, i);
    }
  }

  /** Multiplying every field and coupling by beta multiplies the energy by
      beta. */
  lemma SpinEnergyScale(beta: real, hv: nat -> real, hh: nat -> real, J: nat -> nat -> real,
                        hv1: nat -> real, hh1: nat -> real, J1: nat -> nat -> real,
                        s: seq<real>, t: seq<real>)
    requires forall i: nat :: i < |s| ==> hv1(i) == beta * hv(i)
    requires forall j: nat :: j < |t| ==> hh1(j) == beta * hh(j)
    requires forall i: nat, j: nat :: i < |s| && j < |t| ==> J1(i)(j) == beta * J(i)(j)
    ensures beta * SpinEnergy(hv, hh, J, s, t) == SpinEnergy(hv1, hh1, J1, s, t)
  {
    FieldTermsScale(beta, hv, hv1, s);
    FieldTermsScale(beta, hh, hh1, t);
    CouplingRowsScale(beta, J, J1, s, t);
    EnergyTermsScale(beta, hv, hh, J, hv1, hh1, J1, s, t);
  }

  /** The energy scales by beta once each of its terms does. */
  lemma EnergyTermsScale(beta: real, hv: nat -> real, hh: nat -> real, J: nat -> nat -> real,
                         hv1: nat -> real, hh1: nat -> real, J1: nat -> nat -> real,
                         s: seq<real>, t: seq<real>)
    requires forall i: nat :: i < |s| ==> FieldTerms(hv1, s)(i) == beta * FieldTerms(hv, s)(i)
    requires forall j: nat :: j < |t| ==> FieldTerms(hh1, t)(j) == beta * FieldTerms(hh, t)(j)
    requires forall i: nat :: i < |s| ==> CouplingEnergyRows(J1, s, t)(i) == beta * CouplingEnergyRows(J, s, t)(i)
    ensures beta * SpinEnergy(hv, hh, J, s, t) == SpinEnergy(hv1, hh1, J1, s, t)
  {
    Total3Scale(beta, |s|, FieldTerms(hv, s), |t|, FieldTerms(hh, t), |s|, CouplingEnergyRows(J, s, t),
                FieldTerms(hv1, s), FieldTerms(hh1, t), CouplingEnergyRows(J1, s, t));
  }

  // At beta = 1 the translation's energy is the RBM energy minus C.

  /** One visible unit at beta = 1: its field times its spin is minus the
      unit's linear term. */
  lemma VisibleFieldTerm(p: Parameters, hv: nat -> real, s: seq<real>, i: nat)
    requires i < |p.visible| && hv(i) == Field(p, 1.0, |p.visible|, V(i))
    ensures FieldTerms(hv, s)(i) == -1.0 * VisibleLinear(p, s)(i)
  {
    FieldEnergy(1.0, At(s, i), p.Bv(i), Sum(|p.hidden|, QuarterRow(p, i)));
  }

  lemma VisibleFieldEnergy(p: Parameters, hv: nat -> real, s: seq<real>)
    requires |s| == |p.visible| && VisibleAgree(p, 1.0, |p.visible|, hv)
    ensures Sum(|s|, FieldTerms(hv, s)) == -Sum(|p.visible|, VisibleLinear(p, s))
  {
    forall i: nat | i < |p.visible|
      ensures FieldTerms(hv, s)(i) == -1.0 * VisibleLinear(p, s)(i)
    {
      VisibleFieldTerm(p, hv, s, i);
    }
    SumScale(|p.visible|, -1.0, VisibleLinear(p, s), FieldTerms(hv, s));
  }

  /** One hidden unit at beta = 1, summing its whole column. */
  lemma HiddenFieldTerm(p: Parameters, hh: nat -> real, t: seq<real>, j: nat)
    requires j < |p.hidden| && hh(j) == Field(p, 1.0, |p.visible|, H(j))
    ensures FieldTerms(hh, t)(j) == -1.0 * HiddenLinear(p, t)(j)
  {
    FieldEnergy(1.0, At(t, j), p.Bh(j), Sum(|p.visible|, QuarterColumn(p, j)));
  }

  lemma HiddenFieldEnergy(p: Parameters, hh: nat -> real, t: seq<real>)
    requires |t| == |p.hidden| && HiddenAgree(p, 1.0, |p.visible|, hh)
    ensures Sum(|t|, FieldTerms(hh, t)) == -Sum(|p.hidden|, HiddenLinear(p, t))
  {
    forall j: nat | j < |p.hidden|
      ensures FieldTerms(hh, t)(j) == -1.0 * HiddenLinear(p, t)(j)
    {
      HiddenFieldTerm(p, hh, t, j);
    }
    SumScale(|p.hidden|, -1.0, HiddenLinear(p, t), FieldTerms(hh, t));
  }

  /** One (visible, hidden) pair at beta = 1. */
  lemma CouplingPairTerm(p: Parameters, J: nat -> nat -> real, s: seq<real>, t: seq<real>, i: nat, j: nat)
    requires J(i)(j) == Coupling(p, 1.0, (V(i), H(j)))
    ensures CouplingEnergyTerms(J, s, t, i)(j) == -1.0 * PairTerms(p, s, t, i)(j)
  {
    CouplingEnergy(1.0, At(s, i), At(t, j), p.W(i, j));
  }

  lemma CouplingEnergyRow(p: Parameters, J: nat -> nat -> real, s: seq<real>, t: seq<real>, i: nat)
    requires |t| == |p.hidden|
    requires forall j: nat :: j < |p.hidden| ==> J(i)(j) == Coupling(p, 1.0, (V(i), H(j)))
    ensures CouplingEnergyRows(J, s, t)(i) == -1.0 * PairRows(p, s, t)(i)
  {
    forall j: nat | j < |p.hidden|
      ensures CouplingEnergyTerms(J, s, t, i)(j) == -1.0 * PairTerms(p, s, t, i)(j)
    {
      CouplingPairTerm(p, J, s, t, i, j);
    }
    SumScale(|p.hidden|, -1.0, PairTerms(p, s, t, i), CouplingEnergyTerms(J, s, t, i));
  }

  lemma CouplingEnergyTotal(p: Parameters, J: nat -> nat -> real, s: seq<real>, t: seq<real>)
    requires |s| == |p.visible| && |t| == |p.hidden| && CouplingsAgree(p, 1.0, J)
    ensures Sum(|s|, CouplingEnergyRows(J, s, t)) == -Sum(|p.visible|, PairRows(p, s, t))
  {
    forall i: nat | i < |p.visible|
      ensures CouplingEnergyRows(J, s, t)(i) == -1.0 * PairRows(p, s, t)(i)
    {
      CouplingEnergyRow(p, J, s, t, i);
    }
    SumScale(|p.visible|, -1.0, PairRows(p, s, t), CouplingEnergyRows(J, s, t));
  }

  /** Fields and couplings that agree with the full-column translation at
      beta = 1 have energy equal to the RBM energy minus C. */
  lemma UnitEnergy(p: Parameters, hv: nat -> real, hh: nat -> real, J: nat -> nat -> real, s: seq<real>, t: seq<real>)
    requires Translates(p, 1.0, |p.visible|, hv, hh, J)
    requires |s| == |p.visible| && |t| == |p.hidden|
    ensures SpinEnergy(hv, hh, J, s, t) == -Exponent(p, SpinsToBits(s), SpinsToBits(t)) - EnergyOffset(p)
  {
    VisibleFieldEnergy(p, hv, s);
    HiddenFieldEnergy(p, hh, t);
    CouplingEnergyTotal(p, J, s, t);
    ExponentInSpins(p, s, t);
  }

  /** Values that agree with the translation at beta are those that agree
      with the translation at 1, divided by beta. */
  lemma AgreeScale(p: Parameters, beta: real, rows: nat, hv: nat -> real, hh: nat -> real, J: nat -> nat -> real,
                   hv1: nat -> real, hh1: nat -> real, J1: nat -> nat -> real)
    requires beta != 0.0
    requires Translates(p, beta, rows, hv, hh, J) && Translates(p, 1.0, rows, hv1, hh1, J1)
    ensures forall i: nat :: i < |p.visible| ==> hv1(i) == beta * hv(i)
    ensures forall j: nat :: j < |p.hidden| ==> hh1(j) == beta * hh(j)
    ensures forall i: nat, j: nat :: i < |p.visible| && j < |p.hidden| ==> J1(i)(j) == beta * J(i)(j)
  {
    forall i: nat | i < |p.visible|
      ensures hv1(i) == beta * hv(i)
    {
      FieldScale(p, beta, rows, V(i));
    }
    forall j: nat | j < |p.hidden|
      ensures hh1(j) == beta * hh(j)
    {
      FieldScale(p, beta, rows, H(j));
    }
    forall i: nat, j: nat | i < |p.visible| && j < |p.hidden|
      ensures J1(i)(j) == beta * J(i)(j)
    {
      CouplingScale(p, beta, (V(i), H(j)));
    }
  }

  /** The translation at beta = 1, indexed by unit number. */
  function UnitVisibleFields(p: Parameters): nat -> real
  {
    (i: nat) => Field(p, 1.0, |p.visible|, V(i))
  }

  function UnitHiddenFields(p: Parameters): nat -> real
  {
    (j: nat) => Field(p, 1.0, |p.visible|, H(j))
  }

  function UnitCouplings(p: Parameters): nat -> nat -> real
  {
    (i: nat) => (j: nat) => Coupling(p, 1.0, (V(i), H(j)))
  }

  lemma UnitTranslates(p: Parameters)
    ensures Translates(p, 1.0, |p.visible|, UnitVisibleFields(p), UnitHiddenFields(p), UnitCouplings(p))
  {
  }

  /** Values that agree with the full-column translation at beta give beta
      times the energy equal to the RBM energy minus C. */
  lemma TranslatedEnergy(p: Parameters, beta: real, hv: nat -> real, hh: nat -> real, J: nat -> nat -> real,
                         s: seq<real>, t: seq<real>)
    requires beta != 0.0 && |s| == |p.visible| && |t| == |p.hidden|
    requires Translates(p, beta, |p.visible|, hv, hh, J)
    ensures beta * SpinEnergy(hv, hh, J, s, t) == -Exponent(p, SpinsToBits(s), SpinsToBits(t)) - EnergyOffset(p)
  {
    UnitTranslates(p);
    AgreeScale(p, beta, |p.visible|, hv, hh, J, UnitVisibleFields(p), UnitHiddenFields(p), UnitCouplings(p));
    SpinEnergyScale(beta, hv, hh, J, UnitVisibleFields(p), UnitHiddenFields(p), UnitCouplings(p), s, t);
    UnitEnergy(p, UnitVisibleFields(p), UnitHiddenFields(p), UnitCouplings(p), s, t);
  }

  /** The Ising energy is the spin energy of the problem's values. */
  lemma ScaledIsingEnergy(r: Ising, s: seq<real>, t: seq<real>, beta: real, x: real)
    requires beta * SpinEnergy(VisibleFields(r), HiddenFields(r), CouplingGrid(r), s, t) == x
    ensures beta * IsingEnergy(r, s, t) == x
  {
  }

  /** An Ising problem that agrees with the full-column translation at beta
      has beta times its energy equal to the RBM energy minus C. */
  lemma TranslatedIsingEnergy(p: Parameters, beta: real, r: Ising, s: seq<real>, t: seq<real>)
    requires beta != 0.0 && |s| == |p.visible| && |t| == |p.hidden|
    requires Translates(p, beta, |p.visible|, VisibleFields(r), HiddenFields(r), CouplingGrid(r))
    ensures beta * IsingEnergy(r, s, t) == -Exponent(p, SpinsToBits(s), SpinsToBits(t)) - EnergyOffset(p)
  {
    TranslatedEnergy(p, beta, VisibleFields(r), HiddenFields(r), CouplingGrid(r), s, t);
    ScaledIsingEnergy(r, s, t, beta, -Exponent(p, SpinsToBits(s), SpinsToBits(t)) - EnergyOffset(p));
  }

  lemma IntendedTranslates(p: Parameters, beta: real)
    requires p.Valid() && beta != 0.0
    ensures Translates(p, beta, |p.visible|, VisibleFields(GenerateCouplingsIntended(p, beta)),
                       HiddenFields(GenerateCouplingsIntended(p, beta)), CouplingGrid(GenerateCouplingsIntended(p, beta)))
  {
    Lookups(p, beta, |p.visible|, GenerateCouplingsIntended(p, beta));
  }

  /** The translation is faithful: for the Ising problem r the translation
      builds, any spins s, t and the unit states v = s / 2 + 1/2,
      h = t / 2 + 1/2 the program reads back, beta times the Ising energy is
      the RBM energy E(v, h) = -Exponent(v, h) minus the constant C, so both
      energies order configurations alike. */
  lemma EnergyCorrespondence(p: Parameters, beta: real, r: Ising, s: seq<real>, t: seq<real>)
    requires p.Valid() && beta != 0.0 && |s| == |p.visible| && |t| == |p.hidden|
    requires r == GenerateCouplingsIntended(p, beta)
    ensures beta * IsingEnergy(r, s, t) == -Exponent(p, SpinsToBits(s), SpinsToBits(t)) - EnergyOffset(p)
  {
    IntendedTranslates(p, beta);
    TranslatedIsingEnergy(p, beta, r, s, t);
  }

  /** With as many hidden as visible units the program's loop bound covers
      every row, so the translation as written is the intended one. */
  lemma AsWrittenSquare(p: Parameters, beta: real)
    requires p.Valid() && beta != 0.0 && |p.hidden| == |p.visible|
    ensures GenerateCouplings(p, beta) == Ok(GenerateCouplingsIntended(p, beta))
  {
  }

  /** ... and the energy correspondence holds for the problem it returns. */
  lemma AsWrittenSquareEnergy(p: Parameters, beta: real, r: Ising, s: seq<real>, t: seq<real>)
    requires p.Valid() && beta != 0.0 && |p.hidden| == |p.visible|
    requires GenerateCouplings(p, beta) == Ok(r)
    requires |s| == |p.visible| && |t| == |p.hidden|
    ensures beta * IsingEnergy(r, s, t) == -Exponent(p, SpinsToBits(s), SpinsToBits(t)) - EnergyOffset(p)
  {
    AsWrittenSquare(p, beta);
    EnergyCorrespondence(p, beta, r, s, t);
  }

  /** Two visible units and one hidden unit, with weight 1 in the second
      row only. */
  function TallExample(): Parameters
  {
    Parameters([[0.0], [1.0]], [0.0, 0.0], [0.0])
  }

  /** With more visible than hidden units the program's hidden field leaves
      out the weights of the later rows: here it is 0 where the full column
      gives -1/4, and the Ising energy at visible spins (-1, -1) and hidden
      spin +1 is 1/4 above the one that matches the RBM energy. */
  lemma TallHiddenField()
    ensures GenerateCouplings(TallExample(), 1.0).Ok?
    ensures Get(GenerateCouplings(TallExample(), 1.0).value.field, H(0)) == 0.0
    ensures Get(GenerateCouplingsIntended(TallExample(), 1.0).field, H(0)) == -0.25
  {
    var p := TallExample();
    assert H(0) in Units(|p.visible|, |p.hidden|);
    assert Sum(1, QuarterColumn(p, 0)) == 0.0;
    assert Sum(2, QuarterColumn(p, 0)) == 0.25;
  }

  /** The energy at visible spins (-1, -1) and hidden spin +1. */
  lemma SmallEnergy(hv: nat -> real, hh: nat -> real, J: nat -> nat -> real)
    ensures SpinEnergy(hv, hh, J, [-1.0, -1.0], [1.0]) == -hv(0) - hv(1) + hh(0) - J(0)(0) - J(1)(0)
  {
    var s, t := [-1.0, -1.0], [1.0];
    assert At(s, 0) == -1.0 && At(s, 1) == -1.0 && At(t, 0) == 1.0;
    assert Sum(2, FieldTerms(hv, s)) == -hv(0) - hv(1);
    assert Sum(1, FieldTerms(hh, t)) == hh(0);
    assert Sum(1, CouplingEnergyTerms(J, s, t, 0)) == -J(0)(0);
    assert Sum(1, CouplingEnergyTerms(J, s, t, 1)) == -J(1)(0);
    assert Sum(2, CouplingEnergyRows(J, s, t)) == -J(0)(0) - J(1)(0);
  }

  /** The translation of the example at beta = 1, by rows summed. */
  lemma TallValues(rows: nat)
    requires rows == 1 || rows == 2
    ensures Field(TallExample(), 1.0, rows, V(0)) == 0.0
    ensures Field(TallExample(), 1.0, rows, V(1)) == -0.25
    ensures Field(TallExample(), 1.0, rows, H(0)) == if rows == 1 then 0.0 else -0.25
    ensures Coupling(TallExample(), 1.0, (V(0), H(0))) == 0.0
    ensures Coupling(TallExample(), 1.0, (V(1), H(0))) == -0.25
  {
    var p := TallExample();
    assert Sum(1, QuarterRow(p, 0)) == 0.0;
    assert Sum(1, QuarterRow(p, 1)) == 0.25;
    assert Sum(1, QuarterColumn(p, 0)) == 0.0;
    assert Sum(2, QuarterColumn(p, 0)) == 0.25;
  }

  /** The energy at visible spins s = (-1, -1) and hidden spin t = (+1) of a
      problem that agrees with the example's translation summing `rows`
      rows. */
  lemma TallEnergy(r: Ising, rows: nat, s: seq<real>, t: seq<real>)
    requires rows == 1 || rows == 2
    requires Translates(TallExample(), 1.0, rows, VisibleFields(r), HiddenFields(r), CouplingGrid(r))
    requires s == [-1.0, -1.0] && t == [1.0]
    ensures IsingEnergy(r, s, t) == if rows == 1 then 0.5 else 0.25
  {
    TallValues(rows);
    SmallEnergy(VisibleFields(r), HiddenFields(r), CouplingGrid(r));
  }

  lemma TallAsWrittenEnergy(r: Ising, s: seq<real>, t: seq<real>)
    requires GenerateCouplings(TallExample(), 1.0) == Ok(r)
    requires s == [-1.0, -1.0] && t == [1.0]
    ensures IsingEnergy(r, s, t) == 0.5
  {
    Lookups(TallExample(), 1.0, 1, r);
    TallEnergy(r, 1, s, t);
  }

  lemma TallIntendedEnergy(r0: Ising, s: seq<real>, t: seq<real>)
    requires r0 == GenerateCouplingsIntended(TallExample(), 1.0)
    requires s == [-1.0, -1.0] && t == [1.0]
    ensures IsingEnergy(r0, s, t) == 0.25
  {
    Lookups(TallExample(), 1.0, 2, r0);
    TallEnergy(r0, 2, s, t);
  }

  /** The hidden field the program leaves out costs the correspondence: at
      visible spins s = (-1, -1) and hidden spin t = (+1) the program's
      problem r has energy 1/2 and the intended problem r0 has energy 1/4,
      which is the RBM energy minus C; r misses it by 1/4. */
  lemma TallEnergyGap(p: Parameters, r: Ising, r0: Ising, s: seq<real>, t: seq<real>)
    requires p == TallExample() && GenerateCouplings(p, 1.0) == Ok(r) && r0 == GenerateCouplingsIntended(p, 1.0)
    requires s == [-1.0, -1.0] && t == [1.0]
    ensures IsingEnergy(r, s, t) == 0.5 && IsingEnergy(r0, s, t) == 0.25
    ensures 1.0 * IsingEnergy(r0, s, t) == -Exponent(p, SpinsToBits(s), SpinsToBits(t)) - EnergyOffset(p)
    ensures 1.0 * IsingEnergy(r, s, t) == -Exponent(p, SpinsToBits(s), SpinsToBits(t)) - EnergyOffset(p) + 0.25
  {
    TallAsWrittenEnergy(r, s, t);
    TallIntendedEnergy(r0, s, t);
    EnergyCorrespondence(p, 1.0, r0, s, t);
  }

  // ---------------------------------------------------------------------
  // extract_values_from_samples and the averaging of the reads
  // ---------------------------------------------------------------------

  /** `num_reads`: the number of anneals requested, which the estimate
      divides by whatever number of samples comes back. */
  const NumReads: nat := 200

  /** A sample: the spin the annealer returned for each label. */
  type Sample = map<Label, int>

  datatype Layer = Visible | Hidden

  function UnitLabel(layer: Layer, i: nat): Label
  {
    match layer
    case Visible => V(i)
    case Hidden => H(i)
  }

  /** The first n unit states of one layer in a sample, each spin converted
      to a unit state; a missing label is the KeyError the lookup raises. */
  function ReadStates(sample: Sample, layer: Layer, n: nat): (r: Result<seq<real>>)
    ensures r.Ok? <==> forall i: nat :: i < n ==> UnitLabel(layer, i) in sample
    ensures r.Err? ==> r.error == MissingSpin
    ensures r.Ok? ==> |r.value| == n
    ensures r.Ok? ==> forall i :: 0 <= i < n ==> r.value[i] == SpinToBit(sample[UnitLabel(layer, i)] as real)
  {
    if n == 0 then Ok([])
    else
      var prefix :- ReadStates(sample, layer, n - 1);
      if UnitLabel(layer, n - 1) in sample then Ok(prefix + [SpinToBit(sample[UnitLabel(layer, n - 1)] as real)])
      else Err(MissingSpin)
  }

  /** A sample holds a spin for each of n visible and m hidden units. */
  predicate Complete(sample: Sample, n: nat, m: nat)
  {
    && (forall i: nat :: i < n ==> V(i) in sample)
    && (forall j: nat :: j < m ==> H(j) in sample)
  }

  /** `extract_values_from_samples`: one row of visible and one row of hidden
      unit states per sample, in sample order. */
  function ExtractValues(samples: seq<Sample>, n: nat, m: nat): (r: Result<(Matrix, Matrix)>)
    ensures r.Ok? <==> forall k :: 0 <= k < |samples| ==> Complete(samples[k], n, m)
    ensures r.Err? ==> r.error == MissingSpin
    ensures r.Ok? ==> |r.value.0| == |samples| && |r.value.1| == |samples|
    ensures r.Ok? ==> forall k :: 0 <= k < |samples| ==> |r.value.0[k]| == n && |r.value.1[k]| == m
    ensures r.Ok? ==> forall k, i :: 0 <= k < |samples| && 0 <= i < n ==>
              r.value.0[k][i] == SpinToBit(samples[k][V(i)] as real)
    ensures r.Ok? ==> forall k, j :: 0 <= k < |samples| && 0 <= j < m ==>
              r.value.1[k][j] == SpinToBit(samples[k][H(j)] as real)
  {
    if |samples| == 0 then Ok(([], []))
    else
      var front := samples[..|samples| - 1];
      var last := samples[|samples| - 1];
      assert forall k :: 0 <= k < |front| ==> front[k] == samples[k];
      var prefix :- ExtractValues(front, n, m);
      var row :- ReadSample(last, n, m);
      Ok((prefix.0 + [row.0], prefix.1 + [row.1]))
  }

  /** The visible and the hidden unit states of one sample. */
  function ReadSample(sample: Sample, n: nat, m: nat): (r: Result<(seq<real>, seq<real>)>)
    ensures r.Ok? <==> Complete(sample, n, m)
    ensures r.Err? ==> r.error == MissingSpin
    ensures r.Ok? ==> |r.value.0| == n && |r.value.1| == m
    ensures r.Ok? ==> forall i :: 0 <= i < n ==> r.value.0[i] == SpinToBit(sample[V(i)] as real)
    ensures r.Ok? ==> forall j :: 0 <= j < m ==> r.value.1[j] == SpinToBit(sample[H(j)] as real)
  {
    assert forall i: nat :: UnitLabel(Visible, i) == V(i) && UnitLabel(Hidden, i) == H(i);
    var vis :- ReadStates(sample, Visible, n);
    var hid :- ReadStates(sample, Hidden, m);
    Ok((vis, hid))
  }

  /** Entry i of row r of a state matrix, or 0 outside it. */
  function Entry(states: Matrix, r: nat, i: nat): real
  {
    if r < |states| then At(states[r], i) else 0.0
  }

  /** Unit i of the visible rows against unit j of the hidden rows, read by
      read. */
  function CoOccurrence(vis: Matrix, hid: Matrix, i: nat, j: nat): nat -> real
  {
    (r: nat) => Entry(vis, r, i) * Entry(hid, r, j)
  }

  /** `np.dot(vis_states.transpose(), hid_states) / num_reads`: an n-by-m
      matrix of summed co-occurrences over all rows, divided by 200. */
  function SampleEstimate(vis: Matrix, hid: Matrix, n: nat, m: nat): (e: Matrix)
    ensures |e| == n && forall i :: 0 <= i < n ==> |e[i]| == m
  {
    seq(n, (i: nat) => seq(m, (j: nat) => Sum(|vis|, CoOccurrence(vis, hid, i, j)) / NumReads as real))
  }

  /** The read-out half of `estimate_model`: extract the states from the
      samples, then average. */
  function EstimateFromSamples(samples: seq<Sample>, n: nat, m: nat): (r: Result<Matrix>)
    ensures r.Ok? <==> forall k :: 0 <= k < |samples| ==> Complete(samples[k], n, m)
    ensures r.Err? ==> r.error == MissingSpin
    ensures r.Ok? ==> |r.value| == n && forall i :: 0 <= i < n ==> |r.value[i]| == m
  {
    var states :- ExtractValues(samples, n, m);
    Ok(SampleEstimate(states.0, states.1, n, m))
  }

  /** Every spin present in the samples is -1 or +1. */
  predicate SpinValued(samples: seq<Sample>)
  {
    forall k, l :: 0 <= k < |samples| && l in samples[k] ==> samples[k][l] == -1 || samples[k][l] == 1
  }

  /** The number of the first k reads in which visible unit i and hidden
      unit j are both up. */
  function BothUp(samples: seq<Sample>, i: nat, j: nat, k: nat): (c: nat)
    requires k <= |samples|
    ensures c <= k
  {
    if k == 0 then 0
    else
      var s := samples[k - 1];
      BothUp(samples, i, j, k - 1) + (if V(i) in s && H(j) in s && s[V(i)] == 1 && s[H(j)] == 1 then 1 else 0)
  }

  /** 1 for a read in which visible unit i and hidden unit j are both up,
      0 otherwise. */
  function BothUpIndicator(samples: seq<Sample>, i: nat, j: nat): nat -> real
  {
    (r: nat) => if r < |samples| && V(i) in samples[r] && H(j) in samples[r]
                   && samples[r][V(i)] == 1 && samples[r][H(j)] == 1 then 1.0 else 0.0
  }

  lemma {:induction false} BothUpIsSum(samples: seq<Sample>, i: nat, j: nat, k: nat)
    requires k <= |samples|
    ensures Sum(k, BothUpIndicator(samples, i, j)) == BothUp(samples, i, j, k) as real
  {
    if k > 0 {
      BothUpIsSum(samples, i, j, k - 1);
    }
  }

  /** With spins of -1 and +1 the converted states are 0 and 1, so their
      product is 1 exactly when both units are up. */
  lemma ReadCoOccurrence(samples: seq<Sample>, n: nat, m: nat, vis: Matrix, hid: Matrix, i: nat, j: nat, r: nat)
    requires ExtractValues(samples, n, m) == Ok((vis, hid)) && SpinValued(samples)
    requires i < n && j < m && r < |samples|
    ensures CoOccurrence(vis, hid, i, j)(r) == BothUpIndicator(samples, i, j)(r)
  {
    var s := samples[r];
    assert Complete(s, n, m);
    assert V(i) in s && H(j) in s;
    assert vis[r][i] == SpinToBit(s[V(i)] as real);
    assert hid[r][j] == SpinToBit(s[H(j)] as real);
  }

  /** The co-occurrence summed over all reads counts the reads where both
      units are up. */
  lemma CoOccurrenceCount(samples: seq<Sample>, n: nat, m: nat, vis: Matrix, hid: Matrix, i: nat, j: nat)
    requires ExtractValues(samples, n, m) == Ok((vis, hid)) && SpinValued(samples)
    requires i < n && j < m
    ensures Sum(|vis|, CoOccurrence(vis, hid, i, j)) == BothUp(samples, i, j, |samples|) as real
  {
    forall r: nat | r < |samples|
      ensures CoOccurrence(vis, hid, i, j)(r) == BothUpIndicator(samples, i, j)(r)
    {
      ReadCoOccurrence(samples, n, m, vis, hid, i, j, r);
    }
    SumExt(|samples|, CoOccurrence(vis, hid, i, j), BothUpIndicator(samples, i, j));
    BothUpIsSum(samples, i, j, |samples|);
  }

  /** Each entry of the estimate is the fraction, out of 200, of reads in
      which both units are up. */
  lemma EstimateCounts(samples: seq<Sample>, n: nat, m: nat)
    requires SpinValued(samples) && forall k :: 0 <= k < |samples| ==> Complete(samples[k], n, m)
    ensures EstimateFromSamples(samples, n, m).Ok?
    ensures forall i, j :: 0 <= i < n && 0 <= j < m ==>
              EstimateFromSamples(samples, n, m).value[i][j] == BothUp(samples, i, j, |samples|) as real / NumReads as real
  {
    var states := ExtractValues(samples, n, m).value;
    forall i, j | 0 <= i < n && 0 <= j < m
      ensures EstimateFromSamples(samples, n, m).value[i][j] == BothUp(samples, i, j, |samples|) as real / NumReads as real
    {
      CoOccurrenceCount(samples, n, m, states.0, states.1, i, j);
    }
  }

  /** With at most 200 reads every entry of the estimate lies in [0, 1]. */
  lemma EstimateBounds(samples: seq<Sample>, n: nat, m: nat)
    requires SpinValued(samples) && |samples| <= NumReads
    requires forall k :: 0 <= k < |samples| ==> Complete(samples[k], n, m)
    ensures EstimateFromSamples(samples, n, m).Ok?
    ensures forall i, j :: 0 <= i < n && 0 <= j < m ==>
              0.0 <= EstimateFromSamples(samples, n, m).value[i][j] <= 1.0
  {
    EstimateCounts(samples, n, m);
  }
}
