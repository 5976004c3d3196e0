/**
 * The 1X2 figures the ingestion functions store: the home-win, draw and
 * away-win masses of a Poisson grid, each rounded to three decimals.
 */
module Outcomes {
  import opened Js
  import opened GridSums
  import opened Poisson

  datatype Probs = Probs(homeWinProb: real, drawProb: real, awayWinProb: real)

  /**
   * `Math.round(x * 1000) / 1000` applied to the three outcome masses of `g`:
   * each figure is a whole number of thousandths within half a thousandth of
   * its mass, which by `RoundToUnique` fixes it.
   */
  function RoundedOutcomes(g: seq<seq<real>>): (p: Probs)
    ensures GridSum(g, HomeWin) - 0.0005 < p.homeWinProb <= GridSum(g, HomeWin) + 0.0005
    ensures GridSum(g, Draw) - 0.0005 < p.drawProb <= GridSum(g, Draw) + 0.0005
    ensures GridSum(g, AwayWin) - 0.0005 < p.awayWinProb <= GridSum(g, AwayWin) + 0.0005
    ensures OnGrain(p.homeWinProb, 1000) && OnGrain(p.drawProb, 1000) && OnGrain(p.awayWinProb, 1000)
  {
    Probs(RoundTo(GridSum(g, HomeWin), 1000), RoundTo(GridSum(g, Draw), 1000),
          RoundTo(GridSum(g, AwayWin), 1000))
  }

  /** The three rounded figures add up to the grid's mass to within 0.0015. */
  lemma RoundedSumClose(g: seq<seq<real>>)
    ensures var p := RoundedOutcomes(g);
      var total := GridSum(g, AllCells);
      total - 0.0015 < p.homeWinProb + p.drawProb + p.awayWinProb <= total + 0.0015
  {
    OutcomePartition(g);
  }

  /** On a non-negative grid each rounded figure lies between 0 and the rounded grid mass. */
  lemma RoundedBetween(g: seq<seq<real>>)
    requires NonNeg(g)
    ensures var p := RoundedOutcomes(g);
      var top := RoundTo(GridSum(g, AllCells), 1000);
      0.0 <= p.homeWinProb <= top && 0.0 <= p.drawProb <= top && 0.0 <= p.awayWinProb <= top
  {
    var total := GridSum(g, AllCells);
    GridBounds(g, HomeWin);
    GridBounds(g, Draw);
    GridBounds(g, AwayWin);
    RoundToMonotone(0.0, GridSum(g, HomeWin), 1000);
    RoundToMonotone(0.0, GridSum(g, Draw), 1000);
    RoundToMonotone(0.0, GridSum(g, AwayWin), 1000);
    RoundToMonotone(GridSum(g, HomeWin), total, 1000);
    RoundToMonotone(GridSum(g, Draw), total, 1000);
    RoundToMonotone(GridSum(g, AwayWin), total, 1000);
    assert RoundTo(0.0, 1000) == 0.0 by {
      assert Round(0.0) == 0;
    }
  }

  /** Exchanging the two rates exchanges the home-win and away-win figures; the draw stays. */
  lemma SwapOutcomes(home: Rate, away: Rate, n: nat)
    ensures var p := RoundedOutcomes(PoissonGrid(home, away, n));
      RoundedOutcomes(PoissonGrid(away, home, n)) == Probs(p.awayWinProb, p.drawProb, p.homeWinProb)
  {
    var g := PoissonGrid(home, away, n);
    SwapTransposes(home, away, n);
    TransposeSum(g, n, HomeWin);
    TransposeSum(g, n, Draw);
    TransposeSum(g, n, AwayWin);
  }
}
