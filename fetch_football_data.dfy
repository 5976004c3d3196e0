/**
 * The pure logic inside the football-data.org ingestion function: which
 * competitions to fetch, the "last 20 matches" cut and the mapping of one
 * match to the stored record (status, offset id, name and round fallbacks,
 * season default, fixed rates and probabilities).
 */
module FetchFootballData {
  import opened Options
  import opened Js

  // ---------------------------------------------------------------------------
  // Competitions

  datatype League = League(code: string, name: string)

  /** `LEAGUES`, in declaration order (the order `Object.values` gives). */
  const Leagues: seq<League> := [
    League("PL", "Premier League"), League("PD", "La Liga"), League("SA", "Serie A"),
    League("BL1", "Bundesliga"), League("FL1", "Ligue 1"), League("CL", "Champions League")]

  /** `LEAGUES[code]`: the competition registered under `code`, if any. */
  function LeagueByCode(code: string): (r: Option<League>)
    ensures r.Some? ==> r.value in Leagues && r.value.code == code
    ensures r.None? ==> forall l :: l in Leagues ==> l.code != code
  {
    Find(Leagues, (l: League) => l.code == code)
  }

  /**
   * The competitions to fetch: all six without a `league` parameter (or with
   * an empty one), otherwise `[LEAGUES[filter]].filter(Boolean)` — the one
   * registered under that code, or none.
   */
  function LeaguesToFetch(filter: Option<string>): (r: seq<League>)
    ensures !Truthy(filter) ==> r == Leagues
    ensures Truthy(filter) ==> |r| <= 1
    ensures Truthy(filter) ==> forall l :: l in r <==> l in Leagues && l.code == filter.value
  {
    if !Truthy(filter) then Leagues
    else
      match LeagueByCode(filter.value)
      case Some(l) =>
        assert forall m :: m in Leagues && m.code == filter.value ==> m == l by {
          forall m | m in Leagues && m.code == filter.value
            ensures m == l
          {
            CodesDistinct(m, l);
          }
        }
        [l]
      case None => []
  }

  /** No two competitions share a code. */
  lemma CodesDistinct(a: League, b: League)
    requires a in Leagues && b in Leagues && a.code == b.code
    ensures a == b
  {
  }

  /** Every registered code selects exactly its own competition. */
  lemma KnownCodeSelects(k: nat)
    requires k < |Leagues|
    ensures LeaguesToFetch(Some(Leagues[k].code)) == [Leagues[k]]
  {
    var r := LeaguesToFetch(Some(Leagues[k].code));
    assert Leagues[k] in r;
  }

  /** A code that is not registered selects nothing. */
  lemma UnknownCodeSelectsNone(code: string)
    requires code != "" && forall l :: l in Leagues ==> l.code != code
    ensures LeaguesToFetch(Some(code)) == []
  {
  }

  // ---------------------------------------------------------------------------
  // Records

  /** A team as the API reports it; `None` fields are absent or null. */
  datatype Team = Team(id: int, name: Option<string>, shortName: Option<string>, crest: Option<string>)

  /** The fields of a football-data.org match the function reads. */
  datatype Match = Match(
    id: int, status: string, utcDate: string,
    homeTeam: Option<Team>, awayTeam: Option<Team>,
    fullTimeHome: Option<int>, fullTimeAway: Option<int>,
    venue: Option<string>, matchday: Option<int>)

  /** The row upserted into `matches`, keyed by `apiId`. `None` is SQL null. */
  datatype MatchRecord = MatchRecord(
    apiId: int, league: string, leagueId: Option<int>, season: int,
    homeTeam: string, awayTeam: string, homeTeamId: Option<int>, awayTeamId: Option<int>,
    homeLogo: Option<string>, awayLogo: Option<string>,
    kickoff: string, status: string, homeScore: Option<int>, awayScore: Option<int>,
    venue: Option<string>, round: Option<string>,
    homeLambda: real, awayLambda: real,
    homeWinProb: real, drawProb: real, awayWinProb: real)

  const LiveStatuses: seq<string> := ["IN_PLAY", "PAUSED", "LIVE"]

  /** The stored status: "live" while in play or paused, "finished" once over, else "upcoming". */
  function MatchStatus(status: string): (s: string)
    ensures s == "live" <==> status in LiveStatuses
    ensures s == "finished" <==> status == "FINISHED"
    ensures s == "upcoming" <==> status !in LiveStatuses && status != "FINISHED"
  {
    if status in LiveStatuses then "live"
    else if status == "FINISHED" then "finished"
    else "upcoming"
  }

  /** The offset that keeps these ids apart from the API-Football fixture ids. */
  const ApiIdOffset: int := 9000000

  function ApiId(id: int): (r: int)
    ensures r - ApiIdOffset == id
  {
    ApiIdOffset + id
  }

  /** Distinct matches get distinct stored ids. */
  lemma ApiIdInjective(a: int, b: int)
    requires ApiId(a) == ApiId(b)
    ensures a == b
  {
  }

  /** A non-negative match id never lands below the offset, where API-Football ids below it live. */
  lemma ApiIdAboveOffset(id: nat, otherId: int)
    requires otherId < ApiIdOffset
    ensures ApiId(id) != otherId
  {
  }

  /** `team?.name || team?.shortName || "TBD"`. */
  function TeamName(team: Option<Team>): (r: string)
    ensures r != ""
    ensures team.Some? && Truthy(team.value.name) ==> r == team.value.name.value
    ensures team.Some? && !Truthy(team.value.name) && Truthy(team.value.shortName) ==>
      r == team.value.shortName.value
    ensures team.None? || (!Truthy(team.value.name) && !Truthy(team.value.shortName)) ==> r == "TBD"
  {
    if team.Some? && Truthy(team.value.name) then team.value.name.value
    else if team.Some? && Truthy(team.value.shortName) then team.value.shortName.value
    else "TBD"
  }

  /** `team?.id`. */
  function TeamId(team: Option<Team>): (r: Option<int>)
    ensures r.Some? <==> team.Some?
    ensures r.Some? ==> r.value == team.value.id
  {
    if team.Some? then Some(team.value.id) else None
  }

  /** `team?.crest || null`. */
  function Crest(team: Option<Team>): (r: Option<string>)
    ensures r.Some? <==> team.Some? && Truthy(team.value.crest)
    ensures r.Some? ==> r == team.value.crest
  {
    if team.Some? then OrNull(team.value.crest) else None
  }

  /** `` m.matchday ? `Matchday ${m.matchday}` : null ``: matchday 0 or null gives null. */
  function Round(matchday: Option<int>): (r: Option<string>)
    ensures r.None? <==> matchday.None? || matchday.value == 0
    ensures r.Some? ==> r.value == "Matchday " + IntToDecimal(matchday.value)
  {
    if matchday.Some? && matchday.value != 0 then Some("Matchday " + IntToDecimal(matchday.value))
    else None
  }

  /** Different matchdays are labelled differently. */
  lemma RoundInjective(a: int, b: int)
    requires a != 0 && b != 0 && Round(Some(a)) == Round(Some(b))
    ensures a == b
  {
    var p := "Matchday ";
    assert (p + IntToDecimal(a))[|p|..] == IntToDecimal(a);
    assert (p + IntToDecimal(b))[|p|..] == IntToDecimal(b);
    IntToDecimalInjective(a, b);
  }

  /** Two integers with the same decimal rendering are equal. */
  lemma IntToDecimalInjective(a: int, b: int)
    requires IntToDecimal(a) == IntToDecimal(b)
    ensures a == b
  {
    var da, db := IntToDecimal(a), IntToDecimal(b);
    assert (a < 0) == (da[0] == '-');
    assert (b < 0) == (db[0] == '-');
    if a < 0 {
      assert da[1..] == NatToDecimal(-a);
      assert db[1..] == NatToDecimal(-b);
      DecimalInjective(-a, -b);
    } else {
      DecimalInjective(a, b);
    }
  }

  /** `data.filters?.season || 2025`: a missing or zero season falls back to 2025. */
  function Season(filterSeason: Option<int>): (r: int)
    ensures filterSeason.Some? && filterSeason.value != 0 ==> r == filterSeason.value
    ensures filterSeason.None? || filterSeason.value == 0 ==> r == 2025
  {
    if filterSeason.Some? && filterSeason.value != 0 then filterSeason.value else 2025
  }

  /** The record built for one match of `league`. */
  function ToRecord(league: League, filterSeason: Option<int>, m: Match): (r: MatchRecord)
    ensures r.apiId == ApiId(m.id) && r.league == league.name && r.status == MatchStatus(m.status)
    ensures r.homeTeam == TeamName(m.homeTeam) && r.awayTeam == TeamName(m.awayTeam)
    ensures r.homeTeamId == TeamId(m.homeTeam) && r.awayTeamId == TeamId(m.awayTeam)
    ensures r.homeLogo == Crest(m.homeTeam) && r.awayLogo == Crest(m.awayTeam) && r.venue == OrNull(m.venue)
    ensures r.homeScore == m.fullTimeHome && r.awayScore == m.fullTimeAway && r.kickoff == m.utcDate
    ensures r.round == Round(m.matchday) && r.season == Season(filterSeason)
    ensures r.leagueId == None
    ensures r.homeLambda == 1.55 && r.awayLambda == 1.35
    ensures r.homeWinProb == 0.40 && r.drawProb == 0.28 && r.awayWinProb == 0.32
  {
    MatchRecord(
      ApiId(m.id), league.name, None, Season(filterSeason),
      TeamName(m.homeTeam), TeamName(m.awayTeam), TeamId(m.homeTeam), TeamId(m.awayTeam),
      Crest(m.homeTeam), Crest(m.awayTeam),
      m.utcDate, MatchStatus(m.status), m.fullTimeHome, m.fullTimeAway,
      OrNull(m.venue), Round(m.matchday),
      1.55, 1.35, 0.40, 0.28, 0.32)
  }

  /** The fixed probabilities written for every match add up to 1. */
  lemma FixedProbabilitiesSum(league: League, filterSeason: Option<int>, m: Match)
    ensures var r := ToRecord(league, filterSeason, m);
      r.homeWinProb + r.drawProb + r.awayWinProb == 1.0
  {
  }

  /**
   * The records written for one competition: none when `data.matches` is
   * missing or empty, otherwise one per match of `matches.slice(-20)`, in
   * order.
   */
  function LeagueRecords(league: League, filterSeason: Option<int>, matches: Option<seq<Match>>)
    : (rs: seq<MatchRecord>)
    ensures matches.None? ==> rs == []
    ensures matches.Some? ==> |rs| == Min(20, |matches.value|)
    ensures matches.Some? ==> forall k :: 0 <= k < |rs| ==>
      rs[k] == ToRecord(league, filterSeason, matches.value[|matches.value| - Min(20, |matches.value|) + k])
  {
    if matches.None? || |matches.value| == 0 then []
    else
      var ms := matches.value;
      LastN(ms, 20);
      var recent := Slice(ms, -20, |ms|);
      assert forall k :: 0 <= k < |recent| ==> recent[k] == ms[|ms| - Min(20, |ms|) + k];
      seq(|recent|, k requires 0 <= k < |recent| => ToRecord(league, filterSeason, recent[k]))
  }
}
