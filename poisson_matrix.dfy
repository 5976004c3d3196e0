/**
 * The market figures the Poisson-matrix panel derives from a scoreline grid,
 * and the colour step for each cell.
 */
module PoissonMatrix {
  import opened GridSums

  /** `over25`: the nested reduce adding the cells with i + j > 2. */
  function Over25Prob(m: seq<seq<real>>): real
  {
    GridSum(m, Over25)
  }

  /** For a grid of non-negative cells `over25` lies between 0 and the grid mass. */
  lemma Over25Bounds(m: seq<seq<real>>)
    requires NonNeg(m)
    ensures 0.0 <= Over25Prob(m) <= GridSum(m, AllCells)
  {
    GridBounds(m, Over25);
  }

  /**
   * `btts`: the outer reduce adds nothing for row 0 and, for the other rows,
   * the inner reduce adds the cells with j > 0.
   */
  function Btts(m: seq<seq<real>>): real
  {
    if m == [] then 0.0
    else
      var i := |m| - 1;
      Btts(m[..i]) + (if i > 0 then RowSum(m[i], i, BothScore) else 0.0)
  }

  lemma {:induction false} RowZeroNoBtts(row: seq<real>)
    ensures RowSum(row, 0, BothScore) == 0.0
  {
    if row != [] {
      RowZeroNoBtts(row[..|row| - 1]);
    }
  }

  /** `btts` is the mass of the cells where both sides score. */
  lemma {:induction false} BttsIsBothScore(m: seq<seq<real>>)
    ensures Btts(m) == GridSum(m, BothScore)
  {
    if m != [] {
      BttsIsBothScore(m[..|m| - 1]);
      if |m| == 1 {
        RowZeroNoBtts(m[0]);
      }
    }
  }

  /** For a grid of non-negative cells `btts` lies between 0 and the grid mass. */
  lemma BttsBounds(m: seq<seq<real>>)
    requires NonNeg(m)
    ensures 0.0 <= Btts(m) <= GridSum(m, AllCells)
  {
    BttsIsBothScore(m);
    GridBounds(m, BothScore);
  }

  /** The "Under 2.5" figure is shown as 1 − over25. */
  function UnderShown(m: seq<seq<real>>): (u: real)
    ensures Over25Prob(m) + u == 1.0
  {
    1.0 - Over25Prob(m)
  }

  /**
   * The shown under figure is the in-grid under 2.5 mass plus all the mass
   * the truncated grid leaves out.
   */
  lemma UnderShownCountsMissingMass(m: seq<seq<real>>)
    ensures UnderShown(m) == GridSum(m, Under25) + (1.0 - GridSum(m, AllCells))
  {
    OverUnderPartition(m);
  }

  /** The five colour steps of `getHeatColor`, 4 the strongest. */
  function HeatTier(prob: real): (t: nat)
    ensures t <= 4
    ensures t >= 1 <==> prob > 0.02
    ensures t >= 2 <==> prob > 0.04
    ensures t >= 3 <==> prob > 0.07
    ensures t == 4 <==> prob > 0.10
  {
    if prob > 0.10 then 4
    else if prob > 0.07 then 3
    else if prob > 0.04 then 2
    else if prob > 0.02 then 1
    else 0
  }

  /** A larger probability never gets a weaker colour. */
  lemma HeatTierMonotone(p: real, q: real)
    requires p <= q
    ensures HeatTier(p) <= HeatTier(q)
  {
  }

  const HeatClasses: seq<string> := [
    "bg-secondary text-muted-foreground",
    "bg-primary/10 text-foreground",
    "bg-primary/25 text-foreground",
    "bg-primary/50 text-foreground",
    "bg-primary/80 text-primary-foreground"
  ]

  /** The class string for a cell: one per tier, the strongest only above 0.10. */
  function GetHeatColor(prob: real): (c: string)
    ensures c == HeatClasses[HeatTier(prob)]
    ensures c == "bg-primary/80 text-primary-foreground" <==> prob > 0.10
    ensures c == "bg-secondary text-muted-foreground" <==> prob <= 0.02
  {
    HeatClasses[HeatTier(prob)]
  }
}
