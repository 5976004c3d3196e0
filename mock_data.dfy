/**
 * `generatePoissonMatrix` of the mock-data library: the 6 × 6 grid of
 * scoreline probabilities for goals 0..5 on each side, filled row by row.
 */
module MockData {
  import opened Poisson
  import opened GridSums

  /** Goals 0..5 on each side. */
  const Size: nat := 6

  /** Fills `matrix[i][j]` with pmf(i; λH) · pmf(j; λA) in nested loops. */
  method GeneratePoissonMatrix(home: Rate, away: Rate) returns (matrix: seq<seq<real>>)
    ensures |matrix| == Size && Rectangular(matrix, Size)
    ensures matrix == PoissonGrid(home, away, Size)
  {
    matrix := [];
    var i := 0;
    while i <= 5
      invariant 0 <= i <= Size
      invariant |matrix| == i
      invariant forall a :: 0 <= a < i ==> matrix[a] == PoissonGrid(home, away, Size)[a]
    {
      var row: seq<real> := [];
      var j := 0;
      while j <= 5
        invariant 0 <= j <= Size
        invariant |row| == j
        invariant forall b :: 0 <= b < j ==> row[b] == Cell(home, away, i, b)
      {
        var probHome := Power(home.lambda, i) * home.expNeg / Factorial(i) as real;
        var probAway := Power(away.lambda, j) * away.expNeg / Factorial(j) as real;
        row := row + [probHome * probAway];
        j := j + 1;
      }
      matrix := matrix + [row];
      i := i + 1;
    }
  }

  /** The grid has rank one: any two rows are proportional. */
  lemma RankOne(home: Rate, away: Rate, i: nat, j: nat, k: nat, l: nat)
    requires i < Size && j < Size && k < Size && l < Size
    ensures var m := PoissonGrid(home, away, Size);
      m[i][j] * m[k][l] == m[i][l] * m[k][j]
  {
    var a, b, c, d := Pmf(home, i), Pmf(away, j), Pmf(home, k), Pmf(away, l);
    assert (a * b) * (c * d) == (a * d) * (c * b);
  }

  /** The grid's mass is the product of the two truncated marginal masses. */
  lemma GridTotal(home: Rate, away: Rate, n: nat)
    ensures GridSum(PoissonGrid(home, away, n), AllCells)
         == Total(Marginal(home, n)) * Total(Marginal(away, n))
  {
    ProductTotal(PoissonGrid(home, away, n), Marginal(home, n), Marginal(away, n));
  }
}
