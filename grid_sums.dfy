/**
 * Masked sums over a scoreline grid, rows indexed by home goals i and columns
 * by away goals j. `RowSum` and `GridSum` add from left to right, in the order
 * of a nested `reduce` or of the nested accumulation loops that the source uses
 * to turn a grid into market probabilities.
 */
module GridSums {

  /** The sets of scorelines the source sums over. */
  datatype Region = AllCells | HomeWin | Draw | AwayWin | Over25 | Under25 | BothScore

  predicate In(r: Region, i: nat, j: nat)
  {
    match r
    case AllCells => true
    case HomeWin => i > j
    case Draw => i == j
    case AwayWin => i < j
    case Over25 => i + j > 2
    case Under25 => i + j <= 2
    case BothScore => i > 0 && j > 0
  }

  /** The region seen from the other side: home and away exchange roles. */
  function Mirror(r: Region): (m: Region)
    ensures forall i: nat, j: nat :: In(m, j, i) == In(r, i, j)
  {
    match r
    case HomeWin => AwayWin
    case AwayWin => HomeWin
    case _ => r
  }

  /** The value a cell contributes to a sum over `r`. */
  function Masked(r: Region, i: nat, j: nat, x: real): real
  {
    if In(r, i, j) then x else 0.0
  }

  /** Σ over the cells (i, j) of `row` that lie in `r`, added left to right. */
  function RowSum(row: seq<real>, i: nat, r: Region): real
  {
    if row == [] then 0.0
    else RowSum(row[..|row| - 1], i, r) + Masked(r, i, |row| - 1, row[|row| - 1])
  }

  /** Σ of the row sums, added from row 0 down. */
  function GridSum(g: seq<seq<real>>, r: Region): real
  {
    if g == [] then 0.0
    else GridSum(g[..|g| - 1], r) + RowSum(g[|g| - 1], |g| - 1, r)
  }

  /** Plain left-to-right sum of a sequence. */
  function Total(s: seq<real>): real
  {
    if s == [] then 0.0 else Total(s[..|s| - 1]) + s[|s| - 1]
  }

  predicate NonNeg(g: seq<seq<real>>)
  {
    forall i, j :: 0 <= i < |g| && 0 <= j < |g[i]| ==> g[i][j] >= 0.0
  }

  /** Every row of `g` has `m` cells. */
  predicate Rectangular(g: seq<seq<real>>, m: nat)
  {
    forall i :: 0 <= i < |g| ==> |g[i]| == m
  }

  /** One more cell of a row prefix adds that cell's masked value. */
  lemma RowSumStep(row: seq<real>, i: nat, j: nat, r: Region)
    requires j < |row|
    ensures RowSum(row[..j + 1], i, r) == RowSum(row[..j], i, r) + Masked(r, i, j, row[j])
  {
    assert row[..j + 1][..j] == row[..j];
  }

  /** One more row of a grid prefix adds that row's sum. */
  lemma GridSumStep(g: seq<seq<real>>, i: nat, r: Region)
    requires i < |g|
    ensures GridSum(g[..i + 1], r) == GridSum(g[..i], r) + RowSum(g[i], i, r)
  {
    assert g[..i + 1][..i] == g[..i];
  }

  // ---------------------------------------------------------------------------
  // Partitions

  lemma {:induction false} RowSplit2(row: seq<real>, i: nat, r: Region, a: Region, b: Region)
    requires forall j: nat :: In(r, i, j) <==> In(a, i, j) || In(b, i, j)
    requires forall j: nat :: !(In(a, i, j) && In(b, i, j))
    ensures RowSum(row, i, r) == RowSum(row, i, a) + RowSum(row, i, b)
  {
    if row != [] {
      RowSplit2(row[..|row| - 1], i, r, a, b);
    }
  }

  /** When `a` and `b` split `r` cell by cell, their sums split the sum over `r`. */
  lemma {:induction false} GridSplit2(g: seq<seq<real>>, r: Region, a: Region, b: Region)
    requires forall i: nat, j: nat :: In(r, i, j) <==> In(a, i, j) || In(b, i, j)
    requires forall i: nat, j: nat :: !(In(a, i, j) && In(b, i, j))
    ensures GridSum(g, r) == GridSum(g, a) + GridSum(g, b)
  {
    if g != [] {
      GridSplit2(g[..|g| - 1], r, a, b);
      RowSplit2(g[|g| - 1], |g| - 1, r, a, b);
    }
  }

  lemma {:induction false} RowSplit3(row: seq<real>, i: nat)
    ensures RowSum(row, i, HomeWin) + RowSum(row, i, Draw) + RowSum(row, i, AwayWin)
         == RowSum(row, i, AllCells)
  {
    if row != [] {
      RowSplit3(row[..|row| - 1], i);
    }
  }

  /** Every cell is exactly one of a home win, a draw or an away win. */
  lemma {:induction false} OutcomePartition(g: seq<seq<real>>)
    ensures GridSum(g, HomeWin) + GridSum(g, Draw) + GridSum(g, AwayWin) == GridSum(g, AllCells)
  {
    if g != [] {
      OutcomePartition(g[..|g| - 1]);
      RowSplit3(g[|g| - 1], |g| - 1);
    }
  }

  /** Over 2.5 and under 2.5 split the grid. */
  lemma OverUnderPartition(g: seq<seq<real>>)
    ensures GridSum(g, Over25) + GridSum(g, Under25) == GridSum(g, AllCells)
  {
    GridSplit2(g, AllCells, Over25, Under25);
  }

  // ---------------------------------------------------------------------------
  // Bounds

  lemma {:induction false} RowBounds(row: seq<real>, i: nat, r: Region)
    requires forall j :: 0 <= j < |row| ==> row[j] >= 0.0
    ensures 0.0 <= RowSum(row, i, r) <= RowSum(row, i, AllCells)
  {
    if row != [] {
      RowBounds(row[..|row| - 1], i, r);
    }
  }

  /** On a grid of non-negative cells every masked sum lies between 0 and the grid total. */
  lemma {:induction false} GridBounds(g: seq<seq<real>>, r: Region)
    requires NonNeg(g)
    ensures 0.0 <= GridSum(g, r) <= GridSum(g, AllCells)
  {
    if g != [] {
      GridBounds(g[..|g| - 1], r);
      RowBounds(g[|g| - 1], |g| - 1, r);
    }
  }

  // ---------------------------------------------------------------------------
  // Product grids

  lemma {:induction false} RowScale(row: seq<real>, i: nat, c: real, v: seq<real>)
    requires |row| == |v| && forall j :: 0 <= j < |v| ==> row[j] == c * v[j]
    ensures RowSum(row, i, AllCells) == c * Total(v)
  {
    if row != [] {
      var n := |row| - 1;
      RowScale(row[..n], i, c, v[..n]);
      assert v[..n] == v[..|v| - 1];
    }
  }

  /** A grid with cells u[i] · v[j] adds up to Total(u) · Total(v). */
  lemma {:induction false} ProductTotal(g: seq<seq<real>>, u: seq<real>, v: seq<real>)
    requires |g| == |u| && Rectangular(g, |v|)
    requires forall i, j :: 0 <= i < |u| && 0 <= j < |v| ==> g[i][j] == u[i] * v[j]
    ensures GridSum(g, AllCells) == Total(u) * Total(v)
  {
    if g != [] {
      var n := |g| - 1;
      ProductTotal(g[..n], u[..n], v);
      RowScale(g[n], n, u[n], v);
      assert u[..n] == u[..|u| - 1];
      assert Total(u) * Total(v) == Total(u[..n]) * Total(v) + u[n] * Total(v);
    }
  }

  // ---------------------------------------------------------------------------
  // Transposition

  /** The m × |g| grid whose cell (j, i) is g[i][j]. */
  function Transpose(g: seq<seq<real>>, m: nat): (t: seq<seq<real>>)
    requires Rectangular(g, m)
    ensures |t| == m && Rectangular(t, |g|)
    ensures forall j, i :: 0 <= j < m && 0 <= i < |g| ==> t[j][i] == g[i][j]
  {
    seq(m, j requires 0 <= j < m => seq(|g|, i requires 0 <= i < |g| => g[i][j]))
  }

  /** Σ_{k < n} f(k), added from k = 0 up. */
  function Sum(f: nat -> real, n: nat): real
  {
    if n == 0 then 0.0 else Sum(f, n - 1) + f(n - 1)
  }

  /** Σ_{i < n} Σ_{j < m} f(i, j), row by row. */
  function Sum2(f: (nat, nat) -> real, n: nat, m: nat): real
  {
    if n == 0 then 0.0 else Sum2(f, n - 1, m) + Sum((j: nat) => f(n - 1, j), m)
  }

  lemma {:induction false} SumExt(f: nat -> real, h: nat -> real, n: nat)
    requires forall k: nat :: k < n ==> f(k) == h(k)
    ensures Sum(f, n) == Sum(h, n)
  {
    if n > 0 {
      SumExt(f, h, n - 1);
    }
  }

  lemma {:induction false} Sum2NoColumns(f: (nat, nat) -> real, n: nat)
    ensures Sum2(f, n, 0) == 0.0
  {
    if n > 0 {
      Sum2NoColumns(f, n - 1);
    }
  }

  /** Removing the last column of a double sum removes that column's sum. */
  lemma {:induction false} PeelColumn(f: (nat, nat) -> real, n: nat, m: nat)
    requires m >= 1
    ensures Sum2(f, n, m) == Sum2(f, n, m - 1) + Sum((i: nat) => f(i, m - 1), n)
  {
    if n > 0 {
      PeelColumn(f, n - 1, m);
    }
  }

  /** A double sum can be taken column by column instead of row by row. */
  lemma {:induction false} Fubini(f: (nat, nat) -> real, ft: (nat, nat) -> real, n: nat, m: nat)
    requires forall i: nat, j: nat :: ft(j, i) == f(i, j)
    ensures Sum2(f, n, m) == Sum2(ft, m, n)
  {
    if n == 0 {
      Sum2NoColumns(ft, m);
    } else {
      Fubini(f, ft, n - 1, m);
      PeelColumn(ft, m, n);
      SumExt((j: nat) => f(n - 1, j), (i: nat) => ft(i, n - 1), m);
    }
  }

  lemma {:induction false} RowSumAsSum(row: seq<real>, i: nat, r: Region, f: nat -> real)
    requires forall j: nat :: j < |row| ==> f(j) == Masked(r, i, j, row[j])
    ensures RowSum(row, i, r) == Sum(f, |row|)
  {
    if row != [] {
      RowSumAsSum(row[..|row| - 1], i, r, f);
    }
  }

  lemma {:induction false} GridSumAsSum2(g: seq<seq<real>>, r: Region, m: nat, f: (nat, nat) -> real)
    requires Rectangular(g, m)
    requires forall i: nat, j: nat :: i < |g| && j < m ==> f(i, j) == Masked(r, i, j, g[i][j])
    ensures GridSum(g, r) == Sum2(f, |g|, m)
  {
    if g != [] {
      var n := |g| - 1;
      GridSumAsSum2(g[..n], r, m, f);
      RowSumAsSum(g[n], n, r, (j: nat) => f(n, j));
    }
  }

  /** Summing the transposed grid over the mirrored region gives the same value. */
  lemma TransposeSum(g: seq<seq<real>>, m: nat, r: Region)
    requires Rectangular(g, m)
    ensures GridSum(Transpose(g, m), Mirror(r)) == GridSum(g, r)
  {
    var t := Transpose(g, m);
    var f := (i: nat, j: nat) => if i < |g| && j < m then Masked(r, i, j, g[i][j]) else 0.0;
    var ft := (j: nat, i: nat) => f(i, j);
    GridSumAsSum2(g, r, m, f);
    GridSumAsSum2(t, Mirror(r), |g|, ft);
    Fubini(f, ft, |g|, m);
  }
}
