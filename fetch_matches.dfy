/**
 * The pure logic inside the fixture-ingestion function: the 6-entry Poisson
 * marginals, the 1X2 figures of the 6 × 6 grid, the fixed rates, the status
 * classification, the "last 20 fixtures" cut, the league filter and the
 * mapping of a fixture to the stored match record.
 */
module FetchMatches {
  import opened Options
  import opened Js
  import opened GridSums
  import opened Poisson
  import opened Outcomes

  /** Goals 0..5. */
  const Size: nat := 6

  // ---------------------------------------------------------------------------
  // Probabilities

  /** `computePoisson`: fills dist[k] = λ^k · e^(−λ) / k! for k = 0..5. */
  method ComputePoisson(rate: Rate) returns (dist: seq<real>)
    ensures |dist| == Size
    ensures dist == Marginal(rate, Size)
  {
    dist := [];
    var k := 0;
    while k <= 5
      invariant 0 <= k <= Size
      invariant |dist| == k
      invariant forall a :: 0 <= a < k ==> dist[a] == Pmf(rate, a)
    {
      dist := dist + [Power(rate.lambda, k) * rate.expNeg / Factorial(k) as real];
      k := k + 1;
    }
  }

  /**
   * `computeProbabilities`: accumulates each cell p = homeDist[i] · awayDist[j]
   * into the home-win (i > j), draw (i = j) or away-win (i < j) total, then
   * rounds the three totals to three decimals.
   */
  method ComputeProbabilities(home: Rate, away: Rate) returns (probs: Probs)
    ensures probs == RoundedOutcomes(PoissonGrid(home, away, Size))
  {
    var homeDist := ComputePoisson(home);
    var awayDist := ComputePoisson(away);
    ghost var g := Outer(homeDist, awayDist);
    var homeWin, draw, awayWin := 0.0, 0.0, 0.0;
    var i := 0;
    while i <= 5
      invariant 0 <= i <= Size
      invariant homeWin == GridSum(g[..i], HomeWin)
      invariant draw == GridSum(g[..i], Draw)
      invariant awayWin == GridSum(g[..i], AwayWin)
    {
      GridSumStep(g, i, HomeWin);
      GridSumStep(g, i, Draw);
      GridSumStep(g, i, AwayWin);
      ghost var h0, d0, a0 := homeWin, draw, awayWin;
      var j := 0;
      while j <= 5
        invariant 0 <= j <= Size
        invariant homeWin == h0 + RowSum(g[i][..j], i, HomeWin)
        invariant draw == d0 + RowSum(g[i][..j], i, Draw)
        invariant awayWin == a0 + RowSum(g[i][..j], i, AwayWin)
      {
        RowSumStep(g[i], i, j, HomeWin);
        RowSumStep(g[i], i, j, Draw);
        RowSumStep(g[i], i, j, AwayWin);
        var p := homeDist[i] * awayDist[j];
        assert p == g[i][j];
        if i > j {
          homeWin := homeWin + p;
        } else if i == j {
          draw := draw + p;
        } else {
          awayWin := awayWin + p;
        }
        j := j + 1;
      }
      assert g[i][..j] == g[i];
      i := i + 1;
    }
    assert g[..i] == g;
    GridIsOuter(home, away, Size);
    probs := Probs(RoundTo(homeWin, 1000), RoundTo(draw, 1000), RoundTo(awayWin, 1000));
  }

  // ---------------------------------------------------------------------------
  // Fixed rates

  const HomeAdvantage: real := 1.15
  const BaseLambda: real := 1.35

  /** round(1.35 · 1.15 · 100) / 100, the home rate given to every fixture. */
  function FixedHomeLambda(): (l: real)
    ensures l == 1.55
  {
    assert Round(BaseLambda * HomeAdvantage * 100.0) == 155 by {
      assert BaseLambda * HomeAdvantage * 100.0 + 0.5 == 155.75;
      assert 155 as real <= 155.75 < 156 as real;
    }
    RoundTo(BaseLambda * HomeAdvantage, 100)
  }

  // ---------------------------------------------------------------------------
  // Status

  const LiveCodes: seq<string> := ["1H", "2H", "HT", "ET", "P", "BT", "LIVE"]
  const FinishedCodes: seq<string> := ["FT", "AET", "PEN"]

  /** The stored status of a fixture from its short status code. */
  function MatchStatus(short: string): (s: string)
    ensures s == "live" <==> short in LiveCodes
    ensures s == "finished" <==> short in FinishedCodes
    ensures s == "upcoming" <==> short !in LiveCodes && short !in FinishedCodes
  {
    if short in LiveCodes then "live"
    else if short in FinishedCodes then "finished"
    else "upcoming"
  }

  // ---------------------------------------------------------------------------
  // Which fixtures and leagues

  /** `fixtures.slice(-20)`: the last min(20, n) fixtures in their original order. */
  function RecentFixtures<T>(fixtures: seq<T>): (r: seq<T>)
    ensures |r| == Min(20, |fixtures|)
    ensures r == fixtures[|fixtures| - Min(20, |fixtures|)..]
  {
    LastN(fixtures, 20);
    Slice(fixtures, -20, |fixtures|)
  }

  datatype League = League(id: nat, name: string)

  const Leagues: seq<League> := [League(39, "Premier League"), League(140, "La Liga"), League(135, "Serie A")]

  /**
   * The leagues to fetch: all of them when the `league` parameter is absent or
   * empty, otherwise those whose id equals `parseInt` of it.
   */
  function LeaguesToFetch(filter: Option<string>): (r: seq<League>)
    ensures filter == None || filter == Some("") ==> r == Leagues
    ensures filter.Some? && filter.value != "" ==>
      forall l :: l in r <==> l in Leagues && ParseInt(filter.value) == Some(l.id)
  {
    if filter == None || filter.value == "" then Leagues
    else
      var r := Filter(Leagues, (l: League) => ParseInt(filter.value) == Some(l.id));
      assert forall l :: l in r ==> l in Leagues && ParseInt(filter.value) == Some(l.id) by {
        forall l | l in r
          ensures l in Leagues && ParseInt(filter.value) == Some(l.id)
        {
          var k :| 0 <= k < |r| && r[k] == l;
        }
      }
      assert forall l :: l in Leagues && ParseInt(filter.value) == Some(l.id) ==> l in r by {
        forall l | l in Leagues && ParseInt(filter.value) == Some(l.id)
          ensures l in r
        {
          var k :| 0 <= k < |Leagues| && Leagues[k] == l;
        }
      }
      r
  }

  /** A filter that `parseInt` reads as a league's id selects that league alone. */
  lemma FilterSelects(filter: string, k: nat)
    requires k < |Leagues| && ParseInt(filter) == Some(Leagues[k].id as int)
    ensures LeaguesToFetch(Some(filter)) == [Leagues[k]]
  {
    assert filter != "";
    var keep := (l: League) => ParseInt(filter) == Some(l.id);
    forall i | 0 <= i < |Leagues| && i != k
      ensures !keep(Leagues[i])
    {
      assert Leagues[i].id != Leagues[k].id;
    }
    FilterOne(Leagues, keep, k);
  }

  /** Passing a league's id, written in decimal, as the filter selects that league alone. */
  lemma FilterById(k: nat)
    requires k < |Leagues|
    ensures LeaguesToFetch(Some(NatToDecimal(Leagues[k].id))) == [Leagues[k]]
  {
    ParseIntDecimal(Leagues[k].id);
    FilterSelects(NatToDecimal(Leagues[k].id), k);
  }

  /** A filter `parseInt` cannot read (NaN) selects no league. */
  lemma FilterNaN(filter: string)
    requires filter != "" && ParseInt(filter) == None
    ensures LeaguesToFetch(Some(filter)) == []
  {
    FilterNone(Leagues, (l: League) => ParseInt(filter) == Some(l.id));
  }

  // ---------------------------------------------------------------------------
  // Records

  /** The fields of an API-Football fixture the function reads. */
  datatype Fixture = Fixture(
    id: int, date: string, statusShort: string, venueName: Option<string>, round: string,
    homeId: int, homeName: string, homeLogo: string,
    awayId: int, awayName: string, awayLogo: string,
    goalsHome: Option<int>, goalsAway: Option<int>)

  /** The row upserted into `matches`, keyed by `apiId`. */
  datatype MatchRecord = MatchRecord(
    apiId: int, league: string, leagueId: nat, season: int,
    homeTeam: string, awayTeam: string, homeTeamId: int, awayTeamId: int,
    homeLogo: string, awayLogo: string,
    homeLambda: real, awayLambda: real, probs: Probs,
    kickoff: string, status: string, homeScore: Option<int>, awayScore: Option<int>,
    venue: Option<string>, round: string)

  const CurrentSeason: int := 2024

  /**
   * The record built for a fixture. `exp155` and `exp135` stand for e^(−1.55)
   * and e^(−1.35): the rates, and so the 1X2 figures, are the same for every
   * fixture.
   */
  function ToRecord(league: League, fix: Fixture, exp155: real, exp135: real): (r: MatchRecord)
    ensures r.apiId == fix.id && r.league == league.name && r.leagueId == league.id
    ensures r.season == CurrentSeason && r.status == MatchStatus(fix.statusShort)
    ensures r.homeTeam == fix.homeName && r.awayTeam == fix.awayName
    ensures r.homeTeamId == fix.homeId && r.awayTeamId == fix.awayId
    ensures r.homeLogo == fix.homeLogo && r.awayLogo == fix.awayLogo
    ensures r.kickoff == fix.date && r.homeScore == fix.goalsHome && r.awayScore == fix.goalsAway
    ensures r.venue == OrNull(fix.venueName) && r.round == fix.round
    ensures r.homeLambda == 1.55 && r.awayLambda == 1.35
    ensures r.probs == RoundedOutcomes(PoissonGrid(Rate(1.55, exp155), Rate(1.35, exp135), Size))
  {
    MatchRecord(
      fix.id, league.name, league.id, CurrentSeason,
      fix.homeName, fix.awayName, fix.homeId, fix.awayId, fix.homeLogo, fix.awayLogo,
      FixedHomeLambda(), BaseLambda,
      RoundedOutcomes(PoissonGrid(Rate(FixedHomeLambda(), exp155), Rate(BaseLambda, exp135), Size)),
      fix.date, MatchStatus(fix.statusShort), fix.goalsHome, fix.goalsAway,
      OrNull(fix.venueName), fix.round)
  }

  /** The records written for one league: one per recent fixture, in fixture order. */
  function LeagueRecords(league: League, fixtures: seq<Fixture>, exp155: real, exp135: real)
    : (rs: seq<MatchRecord>)
    ensures |rs| == Min(20, |fixtures|)
    ensures forall k :: 0 <= k < |rs| ==>
      rs[k] == ToRecord(league, fixtures[|fixtures| - Min(20, |fixtures|) + k], exp155, exp135)
  {
    var recent := RecentFixtures(fixtures);
    seq(|recent|, k requires 0 <= k < |recent| => ToRecord(league, recent[k], exp155, exp135))
  }
}
