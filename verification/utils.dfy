/** The helpers of utils.py: fixed-width little-endian bit decoding
    (`unpackbits`), the logistic function over an abstract exponential
    (`sigmoid`), and the element-wise L1 distance between two estimates
    (`l1_between_models`). */
module Utils {
  import opened Outcomes
  import opened Sums

  // ---------------------------------------------------------------------
  // Integer helpers
  // ---------------------------------------------------------------------

  function Pow2(k: nat): (r: nat)
    ensures 0 < r
  {
    if k == 0 then 1 else 2 * Pow2(k - 1)
  }

  /** Quotient and remainder are determined by the division equation. */
  lemma DivModUnique(x: int, d: int, q: int, r: int)
    requires 0 < d && 0 <= r < d && x == d * q + r
    ensures x / d == q && x % d == r
  {
    var k := q - x / d;
    assert d * k == x % d - r;
    MulAtLeast(d, k);
    MulAtLeast(d, -k);
  }

  lemma MulAtLeast(d: int, k: int)
    requires 0 < d
    ensures 1 <= k ==> d <= d * k
  {
    if 1 <= k {
      assert d * k == d * (k - 1) + d;
    }
  }

  /** Halving then dividing by d divides by 2d. */
  lemma DivHalf(x: int, d: nat)
    requires 0 < d
    ensures (x / 2) / d == x / (2 * d)
  {
    var q := x / (2 * d);
    var r := x % (2 * d);
    DivModUnique(x, 2, d * q + r / 2, r % 2);
    DivModUnique(x / 2, d, q, r / 2);
  }

  /** The remainder modulo 2d splits into the remainder modulo d and the
      next bit. */
  lemma ModDouble(x: int, d: nat)
    requires 0 < d
    ensures x % (2 * d) == x % d + d * ((x / d) % 2)
  {
    var q := x / d;
    DivModUnique(x, 2 * d, q / 2, x % d + d * (q % 2));
  }

  /** Halving commutes with reduction modulo 2e. */
  lemma HalfOfMod(x: int, e: nat)
    requires 0 < e
    ensures (x % (2 * e)) / 2 == (x / 2) % e
    ensures (x % (2 * e)) % 2 == x % 2
  {
    var q := x / (2 * e);
    var r := x % (2 * e);
    DivModUnique(r, 2, r / 2, r % 2);
    DivModUnique(x, 2, e * q + r / 2, r % 2);
    DivModUnique(x / 2, e, q, r / 2);
  }

  // ---------------------------------------------------------------------
  // unpackbits
  // ---------------------------------------------------------------------

  /** Bit i of val, peeled off one halving at a time. For a negative val
      this is bit i of its two's-complement form, which is what the source's
      bitwise mask yields. */
  function Bit(val: int, i: nat): (b: int)
    ensures b == 0 || b == 1
    decreases i
  {
    if i == 0 then val % 2 else Bit(val / 2, i - 1)
  }

  lemma {:induction false} BitIsDivMod(val: int, i: nat)
    ensures Bit(val, i) == (val / Pow2(i)) % 2
    decreases i
  {
    if i > 0 {
      BitIsDivMod(val / 2, i - 1);
      DivHalf(val, Pow2(i - 1));
    }
  }

  /** `unpackbits(val, numBits)`: the row of the numBits least significant
      bits of val, least significant first. */
  function Unpack(val: int, numBits: nat): (bits: seq<int>)
    ensures |bits| == numBits
    ensures forall i :: 0 <= i < numBits ==> bits[i] == 0 || bits[i] == 1
  {
    seq(numBits, (i: nat) => Bit(val, i))
  }

  /** Entry i of the decoded row is the i-th binary digit of val,
      (val / 2^i) mod 2. */
  lemma UnpackDigits(val: int, numBits: nat)
    ensures forall i :: 0 <= i < numBits ==> Unpack(val, numBits)[i] == (val / Pow2(i)) % 2
  {
    forall i | 0 <= i < numBits {
      BitIsDivMod(val, i);
    }
  }

  /** The positional value sum of bits[i] * 2^i. */
  function Value(bits: seq<int>): int
  {
    if |bits| == 0 then 0 else Value(bits[..|bits| - 1]) + bits[|bits| - 1] * Pow2(|bits| - 1)
  }

  /** Decoding then re-encoding recovers val modulo 2^numBits. */
  lemma {:induction false} UnpackValue(val: int, numBits: nat)
    ensures Value(Unpack(val, numBits)) == val % Pow2(numBits)
  {
    if numBits > 0 {
      var bits := Unpack(val, numBits);
      assert bits[..numBits - 1] == Unpack(val, numBits - 1);
      UnpackValue(val, numBits - 1);
      BitIsDivMod(val, numBits - 1);
      ModDouble(val, Pow2(numBits - 1));
    }
  }

  /** Round trip: for an index in [0, 2^numBits) the positional sum of its
      decoded bits is the index itself. */
  lemma UnpackRoundTrip(val: int, numBits: nat)
    requires 0 <= val < Pow2(numBits)
    ensures Value(Unpack(val, numBits)) == val
  {
    UnpackValue(val, numBits);
    DivModUnique(val, Pow2(numBits), 0, val);
  }

  /** Distinct indices in [0, 2^numBits) decode to distinct rows, so an
      enumeration over the index range visits each configuration once. */
  lemma UnpackInjective(a: int, b: int, numBits: nat)
    requires 0 <= a < Pow2(numBits) && 0 <= b < Pow2(numBits)
    ensures Unpack(a, numBits) == Unpack(b, numBits) <==> a == b
  {
    if Unpack(a, numBits) == Unpack(b, numBits) {
      UnpackRoundTrip(a, numBits);
      UnpackRoundTrip(b, numBits);
    }
  }

  /** The other direction of the round trip: every row of 0/1 entries has a
      positional value in [0, 2^|bits|) that decodes back to it, so together
      with UnpackInjective the indices [0, 2^n) meet every 0/1 row of length n
      exactly once. */
  lemma {:induction false} UnpackOfValue(bits: seq<int>)
    requires forall i :: 0 <= i < |bits| ==> bits[i] == 0 || bits[i] == 1
    ensures 0 <= Value(bits) < Pow2(|bits|)
    ensures Unpack(Value(bits), |bits|) == bits
  {
    if |bits| > 0 {
      var n := |bits|;
      var front := bits[..n - 1];
      UnpackOfValue(front);
      var x := Value(front);
      var val := Value(bits);
      assert val == Pow2(n - 1) * bits[n - 1] + x;
      DivModUnique(val, Pow2(n - 1), bits[n - 1], x);
      BitIsDivMod(val, n - 1);
      forall i | 0 <= i < n
        ensures Unpack(val, n)[i] == bits[i]
      {
        if i < n - 1 {
          BitOfMod(val, i, n - 1);
          assert Unpack(x, n - 1)[i] == front[i];
        }
      }
    }
  }

  lemma {:induction false} BitOfMod(val: int, i: nat, k: nat)
    requires i < k
    ensures Bit(val % Pow2(k), i) == Bit(val, i)
    decreases i
  {
    HalfOfMod(val, Pow2(k - 1));
    if i > 0 {
      BitOfMod(val / 2, i - 1, k - 1);
    }
  }

  /** An index outside [0, 2^numBits) is not rejected: its high bits are
      silently dropped. */
  lemma UnpackTruncates(val: int, numBits: nat)
    ensures forall i :: 0 <= i < numBits ==> Unpack(val, numBits)[i] == Unpack(val % Pow2(numBits), numBits)[i]
  {
    forall i | 0 <= i < numBits
      ensures Unpack(val, numBits)[i] == Unpack(val % Pow2(numBits), numBits)[i]
    {
      BitOfMod(val, i, numBits);
    }
  }

  /** The indices 2k and 2k+1 differ only in bit 0; above it both carry k. */
  lemma BitsOfPair(k: nat, i: nat)
    ensures i == 0 ==> Bit(2 * k, i) == 0 && Bit(2 * k + 1, i) == 1
    ensures 0 < i ==> Bit(2 * k, i) == Bit(k, i - 1) == Bit(2 * k + 1, i)
  {
    assert (2 * k) / 2 == k && (2 * k + 1) / 2 == k;
  }

  /** Bit i of each index, as a real summand. */
  function BitIndicator(i: nat): nat -> real
  {
    (k: nat) => Bit(k, i) as real
  }

  /** Over all indices in [0, 2^n), bit i (i < n) is set exactly 2^(n-1) times. */
  lemma {:induction false} BitCountIndicator(n: nat, i: nat)
    requires i < n
    ensures Sum(Pow2(n), BitIndicator(i)) == Pow2(n - 1) as real
  {
    if i == 0 {
      LowBitCount(n);
    } else {
      BitCountIndicator(n - 1, i - 1);
      HighBitCount(n, i);
    }
  }

  lemma LowBitCount(n: nat)
    requires 0 < n
    ensures Sum(Pow2(n), BitIndicator(0)) == Pow2(n - 1) as real
  {
    assert Pow2(n) == 2 * Pow2(n - 1);
    LowBitPairs(Pow2(n - 1));
  }

  /** Among 2 * half consecutive indices from 0, half are odd. */
  lemma {:induction false} LowBitPairs(half: nat)
    ensures Sum(2 * half, BitIndicator(0)) == half as real
  {
    if half > 0 {
      LowBitPairs(half - 1);
      BitsOfPair(half - 1, 0);
      assert 2 * half - 1 == 2 * (half - 1) + 1;
    }
  }

  lemma HighBitCount(n: nat, i: nat)
    requires 0 < i < n
    requires Sum(Pow2(n - 1), BitIndicator(i - 1)) == Pow2(n - 2) as real
    ensures Sum(Pow2(n), BitIndicator(i)) == Pow2(n - 1) as real
  {
    var half := Pow2(n - 1);
    assert Pow2(n) == 2 * half;
    assert half == 2 * Pow2(n - 2);
    HighBitPairs(half, i);
  }

  /** Above bit 0, pairing 2k with 2k+1 doubles the count of the next-lower bit. */
  lemma {:induction false} HighBitPairs(half: nat, i: nat)
    requires 0 < i
    ensures Sum(2 * half, BitIndicator(i)) == 2.0 * Sum(half, BitIndicator(i - 1))
  {
    if half > 0 {
      HighBitPairs(half - 1, i);
      BitsOfPair(half - 1, i);
      assert 2 * half - 1 == 2 * (half - 1) + 1;
    }
  }

  // ---------------------------------------------------------------------
  // sigmoid over an abstract exponential
  // ---------------------------------------------------------------------

  /** What the model assumes of the exponential function: strictly positive
      everywhere and exp(0) = 1. Nothing else about floating-point exp is
      used. */
  ghost predicate IsExp(exp: real -> real)
  {
    (forall x :: 0.0 < exp(x)) && exp(0.0) == 1.0
  }

  /** `sigmoid(x) = 1 / (1 + exp(-x))`. */
  function Sigmoid(exp: real -> real, x: real): (r: real)
    requires IsExp(exp)
    ensures 0.0 < r < 1.0
    ensures x == 0.0 ==> r == 0.5
  {
    assert 0.0 < exp(-x);
    1.0 / (1.0 + exp(-x))
  }

  // ---------------------------------------------------------------------
  // l1_between_models
  // ---------------------------------------------------------------------

  type Matrix = seq<seq<real>>

  predicate SameShape(a: Matrix, b: Matrix)
  {
    |a| == |b| && forall i :: 0 <= i < |a| ==> |a[i]| == |b[i]|
  }

  function Abs(x: real): real
  {
    if x < 0.0 then -x else x
  }

  function RowDistance(a: seq<real>, b: seq<real>): (d: real)
    requires |a| == |b|
    ensures 0.0 <= d
  {
    if |a| == 0 then 0.0 else Abs(a[0] - b[0]) + RowDistance(a[1..], b[1..])
  }

  /** Sum of |a[i][j] - b[i][j]| over every entry of two same-shape matrices. */
  function Distance(a: Matrix, b: Matrix): (d: real)
    requires SameShape(a, b)
    ensures 0.0 <= d
  {
    if |a| == 0 then 0.0 else RowDistance(a[0], b[0]) + Distance(a[1..], b[1..])
  }

  /** `l1_between_models`: the distance of two estimates, or a shape error. */
  function L1BetweenModels(a: Matrix, b: Matrix): (r: Result<real>)
    ensures r.Ok? <==> SameShape(a, b)
    ensures r.Err? ==> r.error == ShapeMismatch
    ensures r.Ok? ==> 0.0 <= r.value
    ensures r.Ok? ==> (r.value == 0.0 <==> a == b)
  {
    if SameShape(a, b) then
      DistanceZero(a, b);
      Ok(Distance(a, b))
    else
      Err(ShapeMismatch)
  }

  lemma {:induction false} RowDistanceZero(a: seq<real>, b: seq<real>)
    requires |a| == |b|
    ensures RowDistance(a, b) == 0.0 <==> a == b
  {
    if |a| > 0 {
      RowDistanceZero(a[1..], b[1..]);
      assert a == [a[0]] + a[1..] && b == [b[0]] + b[1..];
    }
  }

  /** The distance vanishes exactly on equal matrices. */
  lemma {:induction false} DistanceZero(a: Matrix, b: Matrix)
    requires SameShape(a, b)
    ensures Distance(a, b) == 0.0 <==> a == b
  {
    if |a| > 0 {
      RowDistanceZero(a[0], b[0]);
      DistanceZero(a[1..], b[1..]);
      assert a == [a[0]] + a[1..] && b == [b[0]] + b[1..];
    }
  }

  lemma {:induction false} RowDistanceSymmetric(a: seq<real>, b: seq<real>)
    requires |a| == |b|
    ensures RowDistance(a, b) == RowDistance(b, a)
  {
    if |a| > 0 {
      RowDistanceSymmetric(a[1..], b[1..]);
    }
  }

  lemma {:induction false} DistanceSymmetric(a: Matrix, b: Matrix)
    requires SameShape(a, b)
    ensures Distance(a, b) == Distance(b, a)
  {
    if |a| > 0 {
      RowDistanceSymmetric(a[0], b[0]);
      DistanceSymmetric(a[1..], b[1..]);
    }
  }

  lemma {:induction false} RowDistanceTriangle(a: seq<real>, b: seq<real>, c: seq<real>)
    requires |a| == |b| == |c|
    ensures RowDistance(a, c) <= RowDistance(a, b) + RowDistance(b, c)
  {
    if |a| > 0 {
      RowDistanceTriangle(a[1..], b[1..], c[1..]);
    }
  }

  lemma {:induction false} DistanceTriangle(a: Matrix, b: Matrix, c: Matrix)
    requires SameShape(a, b) && SameShape(b, c)
    ensures Distance(a, c) <= Distance(a, b) + Distance(b, c)
  {
    if |a| > 0 {
      RowDistanceTriangle(a[0], b[0], c[0]);
      DistanceTriangle(a[1..], b[1..], c[1..]);
    }
  }
}
