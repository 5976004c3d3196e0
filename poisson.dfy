/**
 * The Poisson probability mass function shared by the scoreline grids:
 * pmf(k; λ) = λ^k · e^(−λ) / k!. The exponential is not modelled; each rate
 * carries the value of e^(−λ) beside λ.
 */
module Poisson {
  import opened GridSums

  /** A goal rate λ and the value e^(−λ) that `Math.exp(-λ)` supplies for it. */
  datatype Rate = Rate(lambda: real, expNeg: real)

  /** The rates the model can meet: λ ≥ 0 and e^(−λ) positive. */
  predicate ValidRate(r: Rate)
  {
    r.lambda >= 0.0 && r.expNeg > 0.0
  }

  /** `Math.pow(x, k)` for a whole exponent. */
  function Power(x: real, k: nat): real
  {
    if k == 0 then 1.0 else Power(x, k - 1) * x
  }

  lemma PowerNonNeg(x: real, k: nat)
    requires x >= 0.0
    ensures Power(x, k) >= 0.0
  {
    if k > 0 {
      PowerNonNeg(x, k - 1);
      assert Power(x, k) == Power(x, k - 1) * x;
    }
  }

  /** The source's recursive `factorial`: 1 for n ≤ 1, otherwise n · factorial(n − 1). */
  function Factorial(n: int): (r: int)
    ensures r >= 1
  {
    if n <= 1 then 1 else n * Factorial(n - 1)
  }

  /** pmf(k; λ) = λ^k · e^(−λ) / k!, computed as `Math.pow(λ, k) * Math.exp(-λ) / factorial(k)`. */
  function Pmf(r: Rate, k: nat): real
  {
    Power(r.lambda, k) * r.expNeg / Factorial(k) as real
  }

  /** Every mass of a valid rate is non-negative. */
  lemma PmfNonNeg(r: Rate, k: nat)
    requires ValidRate(r)
    ensures Pmf(r, k) >= 0.0
  {
    PowerNonNeg(r.lambda, k);
    QuotientNonNeg(Power(r.lambda, k), r.expNeg, Factorial(k) as real);
  }

  lemma QuotientNonNeg(a: real, b: real, c: real)
    requires c > 0.0
    ensures a >= 0.0 && b >= 0.0 ==> a * b / c >= 0.0
  {
    if a >= 0.0 && b >= 0.0 {
      assert a * b >= 0.0;
    }
  }

  /** The first `n` masses pmf(0..n−1; λ), as `computePoisson` lists them. */
  function Marginal(r: Rate, n: nat): (m: seq<real>)
    ensures |m| == n && forall k :: 0 <= k < n ==> m[k] == Pmf(r, k)
  {
    seq(n, k requires 0 <= k < n => Pmf(r, k))
  }

  /** The probability of the scoreline (i, j) when the two sides score independently. */
  function Cell(home: Rate, away: Rate, i: nat, j: nat): real
  {
    Pmf(home, i) * Pmf(away, j)
  }

  /** The n × n scoreline grid, rows indexed by home goals and columns by away goals. */
  function PoissonGrid(home: Rate, away: Rate, n: nat): (g: seq<seq<real>>)
    ensures |g| == n && forall i :: 0 <= i < n ==> |g[i]| == n
    ensures forall i, j :: 0 <= i < n && 0 <= j < n ==> g[i][j] == Cell(home, away, i, j)
  {
    seq(n, i requires 0 <= i < n => seq(n, j requires 0 <= j < n => Cell(home, away, i, j)))
  }

  /** The grid whose cell (i, j) is u[i] · v[j]. */
  function Outer(u: seq<real>, v: seq<real>): (g: seq<seq<real>>)
    ensures |g| == |u| && forall i :: 0 <= i < |u| ==> |g[i]| == |v|
    ensures forall i, j :: 0 <= i < |u| && 0 <= j < |v| ==> g[i][j] == u[i] * v[j]
  {
    seq(|u|, i requires 0 <= i < |u| => seq(|v|, j requires 0 <= j < |v| => u[i] * v[j]))
  }

  /** The Poisson grid is the outer product of the two truncated marginals. */
  lemma GridIsOuter(home: Rate, away: Rate, n: nat)
    ensures PoissonGrid(home, away, n) == Outer(Marginal(home, n), Marginal(away, n))
  {
    var mh, ma := Marginal(home, n), Marginal(away, n);
    var g, o := PoissonGrid(home, away, n), Outer(mh, ma);
    forall i | 0 <= i < n
      ensures g[i] == o[i]
    {
      assert |g[i]| == |o[i]| == n;
      forall j | 0 <= j < n
        ensures g[i][j] == o[i][j]
      {
        var a, b := Pmf(home, i), Pmf(away, j);
        assert mh[i] == a && ma[j] == b;
        assert g[i][j] == a * b;
        assert o[i][j] == mh[i] * ma[j];
      }
    }
  }

  /** For valid rates no cell is negative. */
  lemma GridNonNeg(home: Rate, away: Rate, n: nat)
    requires ValidRate(home) && ValidRate(away)
    ensures NonNeg(PoissonGrid(home, away, n))
  {
    var g := PoissonGrid(home, away, n);
    forall i, j | 0 <= i < |g| && 0 <= j < |g[i]|
      ensures g[i][j] >= 0.0
    {
      PmfNonNeg(home, i);
      PmfNonNeg(away, j);
    }
  }

  /** Exchanging the two rates transposes the grid. */
  lemma SwapTransposes(home: Rate, away: Rate, n: nat)
    ensures PoissonGrid(away, home, n) == Transpose(PoissonGrid(home, away, n), n)
  {
    var s, t := PoissonGrid(away, home, n), Transpose(PoissonGrid(home, away, n), n);
    forall i | 0 <= i < n
      ensures s[i] == t[i]
    {
      assert |s[i]| == |t[i]| == n;
      forall j | 0 <= j < n
        ensures s[i][j] == t[i][j]
      {
        assert s[i][j] == Pmf(away, i) * Pmf(home, j);
        assert t[i][j] == Pmf(home, j) * Pmf(away, i);
      }
    }
  }
}
