/** Finite sums f(0) + ... + f(n-1) over real-valued summands, accumulated in
    index order like the enumeration loops, with the algebra the proofs need.
    Every lemma takes its summands as functions and relates them pointwise, so
    callers never depend on two lambda expressions being recognised as equal. */
module Sums {

  function Sum(n: nat, f: nat -> real): real
  {
    if n == 0 then 0.0 else Sum(n - 1, f) + f(n - 1)
  }

  lemma {:induction false} SumExt(n: nat, f: nat -> real, g: nat -> real)
    requires forall k: nat :: k < n ==> f(k) == g(k)
    ensures Sum(n, f) == Sum(n, g)
  {
    if n > 0 {
      SumExt(n - 1, f, g);
    }
  }

  lemma {:induction false} SumAdd(n: nat, f: nat -> real, g: nat -> real, h: nat -> real)
    requires forall k: nat :: k < n ==> h(k) == f(k) + g(k)
    ensures Sum(n, h) == Sum(n, f) + Sum(n, g)
  {
    if n > 0 {
      SumAdd(n - 1, f, g, h);
    }
  }

  lemma {:induction false} SumScale(n: nat, c: real, f: nat -> real, h: nat -> real)
    requires forall k: nat :: k < n ==> h(k) == c * f(k)
    ensures Sum(n, h) == c * Sum(n, f)
  {
    if n > 0 {
      SumScale(n - 1, c, f, h);
      calc {
        Sum(n, h);
        Sum(n - 1, h) + h(n - 1);
        c * Sum(n - 1, f) + c * f(n - 1);
        c * (Sum(n - 1, f) + f(n - 1));
      }
    }
  }

  lemma {:induction false} SumConst(n: nat, c: real, f: nat -> real)
    requires forall k: nat :: k < n ==> f(k) == c
    ensures Sum(n, f) == n as real * c
  {
    if n > 0 {
      SumConst(n - 1, c, f);
      assert n as real * c == (n - 1) as real * c + c;
    }
  }

  lemma {:induction false} SumMono(n: nat, f: nat -> real, g: nat -> real)
    requires forall k: nat :: k < n ==> f(k) <= g(k)
    ensures Sum(n, f) <= Sum(n, g)
  {
    if n > 0 {
      SumMono(n - 1, f, g);
    }
  }

  lemma {:induction false} SumNonneg(n: nat, f: nat -> real)
    requires forall k: nat :: k < n ==> 0.0 <= f(k)
    ensures 0.0 <= Sum(n, f)
  {
    if n > 0 {
      SumNonneg(n - 1, f);
    }
  }

  lemma {:induction false} SumPos(n: nat, f: nat -> real)
    requires 0 < n
    requires forall k: nat :: k < n ==> 0.0 < f(k)
    ensures 0.0 < Sum(n, f)
  {
    SumNonneg(n - 1, f);
  }

  /** Exchanging the order of a double sum: rows(i) sums g(i) over j < m,
      cols(j) sums gt(j) over i < n, and gt is g transposed. */
  lemma {:induction false} SumSwap(n: nat, m: nat, g: nat -> nat -> real, gt: nat -> nat -> real,
                                   rows: nat -> real, cols: nat -> real)
    requires forall i: nat, j: nat :: i < n && j < m ==> gt(j)(i) == g(i)(j)
    requires forall i: nat :: i < n ==> rows(i) == Sum(m, g(i))
    requires forall j: nat :: j < m ==> cols(j) == Sum(n, gt(j))
    ensures Sum(n, rows) == Sum(m, cols)
  {
    if n == 0 {
      SumConst(m, 0.0, cols);
    } else {
      var prev: nat -> real := (j: nat) => Sum(n - 1, gt(j));
      SumSwap(n - 1, m, g, gt, rows, prev);
      SumAdd(m, prev, g(n - 1), cols);
    }
  }

  /** Pointwise product of three summands. */
  function Product3(a: nat -> real, b: nat -> real, c: nat -> real): nat -> real
  {
    (k: nat) => a(k) * b(k) * c(k)
  }

  /** Two constant factors come out of the sum. */
  lemma SumProduct3Const(n: nat, a: nat -> real, b: nat -> real, c: nat -> real, beta: real, gamma: real)
    requires forall k: nat :: k < n ==> b(k) == beta
    requires forall k: nat :: k < n ==> c(k) == gamma
    ensures Sum(n, Product3(a, b, c)) == (beta * gamma) * Sum(n, a)
  {
    forall k: nat | k < n
      ensures Product3(a, b, c)(k) == (beta * gamma) * a(k)
    {
      Product3Const(a, b, c, k, beta, gamma);
    }
    SumScale(n, beta * gamma, a, Product3(a, b, c));
  }

  lemma Product3Const(a: nat -> real, b: nat -> real, c: nat -> real, k: nat, beta: real, gamma: real)
    requires b(k) == beta && c(k) == gamma
    ensures Product3(a, b, c)(k) == (beta * gamma) * a(k)
  {
    Rearrange(a(k), beta, gamma);
  }

  /** Three sums added together. */
  function Total3(n1: nat, a: nat -> real, n2: nat, b: nat -> real, n3: nat, c: nat -> real): real
  {
    Sum(n1, a) + Sum(n2, b) + Sum(n3, c)
  }

  /** Three sums whose summands are all scaled by beta: their total is
      scaled by beta. */
  lemma Total3Scale(beta: real, n1: nat, a: nat -> real, n2: nat, b: nat -> real, n3: nat, c: nat -> real,
                    a1: nat -> real, b1: nat -> real, c1: nat -> real)
    requires forall k: nat :: k < n1 ==> a1(k) == beta * a(k)
    requires forall k: nat :: k < n2 ==> b1(k) == beta * b(k)
    requires forall k: nat :: k < n3 ==> c1(k) == beta * c(k)
    ensures beta * Total3(n1, a, n2, b, n3, c) == Total3(n1, a1, n2, b1, n3, c1)
  {
    SumScale(n1, beta, a, a1);
    SumScale(n2, beta, b, b1);
    SumScale(n3, beta, c, c1);
    Distribute3(beta, Sum(n1, a), Sum(n2, b), Sum(n3, c));
  }

  lemma Distribute3(beta: real, a: real, b: real, c: real)
    ensures beta * (a + b + c) == beta * a + beta * b + beta * c
  {
  }

  /** Normalising: if each P(k) is M(k) / z and z is the sum of all M(k),
      the P(k) add up to one. */
  lemma NormalisedSum(n: nat, z: real, m: nat -> real, pr: nat -> real)
    requires 0.0 < z && z == Sum(n, m)
    requires forall k: nat :: k < n ==> pr(k) == m(k) / z
    ensures Sum(n, pr) == 1.0
  {
    forall k: nat | k < n
      ensures pr(k) == (1.0 / z) * m(k)
    {
      DivFacts(m(k), z);
    }
    SumScale(n, 1.0 / z, m, pr);
    DivFacts(z, z);
  }

  /** Division facts kept in a context of their own. */
  lemma DivFacts(a: real, z: real)
    requires z != 0.0
    ensures (a / z) * z == a
    ensures a / z == (1.0 / z) * a
    ensures z / z == 1.0
  {
  }

  /** A 0/1 factor times a probability times a positive weight lies
      between 0 and the weight. */
  lemma WeightedBound(a: real, b: real, c: real)
    requires (a == 0.0 || a == 1.0) && 0.0 < b < 1.0 && 0.0 < c
    ensures 0.0 <= a * b * c <= c
  {
  }

  lemma Rearrange(a: real, b: real, c: real)
    ensures a * b * c == (b * c) * a
  {
  }

  lemma UniformShare(a: real, b: real)
    requires 0.0 < a && 0.0 < b
    ensures a / (b * a) == 1.0 / b
  {
  }

  /** Half of a uniform share 1/N, counted N/2 times, is a quarter. */
  lemma QuarterShare(size: nat, count: real)
    requires 0 < size && size % 2 == 0 && count == (size / 2) as real
    ensures (0.5 * (1.0 / size as real)) * count == 0.25
  {
    assert size as real == 2.0 * count;
  }

  /** A product whose second and third factors are the constants 1/2 and
      1/size, summed against a factor that is on for exactly half of the
      size points, is 1/4. */
  lemma QuarterOfProduct(size: nat, a: nat -> real, b: nat -> real, c: nat -> real)
    requires 0 < size && size % 2 == 0
    requires forall k: nat :: k < size ==> b(k) == 0.5 && c(k) == 1.0 / size as real
    requires Sum(size, a) == (size / 2) as real
    ensures Sum(size, Product3(a, b, c)) == 0.25
  {
    SumProduct3Const(size, a, b, c, 0.5, 1.0 / size as real);
    QuarterShare(size, Sum(size, a));
  }

  /** Each of n equal positive summands is the share 1/n of their total. */
  lemma UniformNormalised(n: nat, f: nat -> real, c: real, z: real, x: real)
    requires 0 < n && 0.0 < c
    requires forall k: nat :: k < n ==> f(k) == c
    requires z == Sum(n, f) && 0.0 < z && x == c
    ensures x / z == 1.0 / n as real
  {
    SumConst(n, c, f);
    UniformShare(c, n as real);
  }


  lemma {:induction false} SumAdd4(n: nat, a: nat -> real, b: nat -> real, c: nat -> real, d: nat -> real,
                                   f: nat -> real)
    requires forall k: nat :: k < n ==> f(k) == a(k) + b(k) + c(k) + d(k)
    ensures Sum(n, f) == Sum(n, a) + Sum(n, b) + Sum(n, c) + Sum(n, d)
  {
    if n > 0 {
      SumAdd4(n - 1, a, b, c, d, f);
    }
  }

  /** Summands scaled by a constant factor. */
  function Scaled(c: real, f: nat -> real): nat -> real
  {
    (k: nat) => c * f(k)
  }

  /** A running total that starts at `start` and has f(0), ..., f(n-1)
      subtracted from it one at a time, the way an accumulating `-=` loop
      builds it. */
  function Deduct(start: real, n: nat, f: nat -> real): real
  {
    if n == 0 then start else Deduct(start, n - 1, f) - f(n - 1)
  }

  lemma {:induction false} DeductIsSum(start: real, n: nat, f: nat -> real)
    ensures Deduct(start, n, f) == start - Sum(n, f)
  {
    if n > 0 {
      DeductIsSum(start, n - 1, f);
    }
  }
}
