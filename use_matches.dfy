/**
 * The client-side match adapters: the UUID test that guards the single-match
 * query, and `dbMatchToMatch`, which turns a stored row into the shape the
 * components use, filling defaults with `??` (null only) or `||` (any falsy
 * value).
 */
module UseMatches {
  import opened Options
  import opened Js

  // ---------------------------------------------------------------------------
  // The UUID test

  /** A hexadecimal digit, either case (the pattern carries the `i` flag). */
  predicate IsHex(c: char)
  {
    '0' <= c <= '9' || 'a' <= c <= 'f' || 'A' <= c <= 'F'
  }

  /** The group lengths of the pattern: 8-4-4-4-12. */
  const UuidGroups: seq<nat> := [8, 4, 4, 4, 12]

  /** `s` starts with `n` hexadecimal digits. */
  predicate HexRun(s: string, n: nat)
  {
    n <= |s| && forall i :: 0 <= i < n ==> IsHex(s[i])
  }

  /**
   * The anchored pattern read group by group: `lens[0]` hex digits, then, when
   * more groups follow, a '-' and the rest; the last group ends the string.
   */
  predicate MatchesGroups(s: string, lens: seq<nat>)
    decreases |lens|
  {
    if lens == [] then s == ""
    else if |lens| == 1 then |s| == lens[0] && HexRun(s, lens[0])
    else
      && HexRun(s, lens[0]) && lens[0] < |s| && s[lens[0]] == '-'
      && MatchesGroups(s[lens[0] + 1..], lens[1..])
  }

  /** `/^[0-9a-f]{8}-[0-9a-f]{4}-[0-9a-f]{4}-[0-9a-f]{4}-[0-9a-f]{12}$/i.test(id)`. */
  predicate IsUuid(id: string)
  {
    MatchesGroups(id, UuidGroups)
  }

  /** The positions of the four dashes in a 36-character UUID. */
  predicate DashAt(i: int)
  {
    i == 8 || i == 13 || i == 18 || i == 23
  }

  /** The same shape by position: 36 characters, dashes at 8, 13, 18 and 23, hex digits elsewhere. */
  predicate UuidShape(id: string)
  {
    |id| == 36 && forall i :: 0 <= i < 36 ==> if DashAt(i) then id[i] == '-' else IsHex(id[i])
  }

  /** One step of the pattern: the first group, its dash, then the remaining groups. */
  lemma GroupStep(s: string, lens: seq<nat>)
    requires |lens| >= 2
    ensures MatchesGroups(s, lens) <==>
      HexRun(s, lens[0]) && lens[0] < |s| && s[lens[0]] == '-' && MatchesGroups(s[lens[0] + 1..], lens[1..])
  {
  }

  /** The pattern accepts exactly the strings of the positional shape. */
  lemma UuidShapeIff(id: string)
    ensures IsUuid(id) <==> UuidShape(id)
  {
    if IsUuid(id) {
      var s1 := id[9..];
      var s2 := s1[5..];
      var s3 := s2[5..];
      var s4 := s3[5..];
      assert MatchesGroups(s1, [4, 4, 4, 12]);
      assert MatchesGroups(s2, [4, 4, 12]);
      assert MatchesGroups(s3, [4, 12]);
      assert MatchesGroups(s4, [12]);
      assert |id| == 36;
      forall i | 0 <= i < 36
        ensures if DashAt(i) then id[i] == '-' else IsHex(id[i])
      {
        if i < 8 {
        } else if i == 8 {
        } else if i <= 13 {
          assert id[i] == s1[i - 9];
        } else if i <= 18 {
          assert id[i] == s2[i - 14];
        } else if i <= 23 {
          assert id[i] == s3[i - 19];
        } else {
          assert id[i] == s4[i - 24];
        }
      }
    }
    if UuidShape(id) {
      var s1 := id[9..];
      var s2 := s1[5..];
      var s3 := s2[5..];
      var s4 := s3[5..];
      assert MatchesGroups(s4, [12]) by {
        forall i | 0 <= i < 12 ensures IsHex(s4[i]) { assert s4[i] == id[i + 24]; }
      }
      assert MatchesGroups(s3, [4, 12]) by {
        forall i | 0 <= i < 4 ensures IsHex(s3[i]) { assert s3[i] == id[i + 19]; }
        assert s3[5..] == s4;
      }
      assert MatchesGroups(s2, [4, 4, 12]) by {
        forall i | 0 <= i < 4 ensures IsHex(s2[i]) { assert s2[i] == id[i + 14]; }
        assert s2[5..] == s3;
      }
      assert MatchesGroups(s1, [4, 4, 4, 12]) by {
        forall i | 0 <= i < 4 ensures IsHex(s1[i]) { assert s1[i] == id[i + 9]; }
        assert s1[5..] == s2;
      }
      assert HexRun(id, 8) by {
        forall i | 0 <= i < 8 ensures IsHex(id[i]) { assert !DashAt(i); }
      }
      assert UuidGroups[1..] == [4, 4, 4, 12];
      GroupStep(id, UuidGroups);
    }
  }

  /** `enabled: isUUID && !!id`: the single-match query runs only for a non-empty UUID. */
  predicate QueryEnabled(id: string)
  {
    IsUuid(id) && id != ""
  }

  /** The emptiness test adds nothing: a UUID is never empty, so the query runs exactly for UUIDs. */
  lemma QueryEnabledIff(id: string)
    ensures QueryEnabled(id) <==> IsUuid(id)
  {
    UuidShapeIff(id);
  }

  // ---------------------------------------------------------------------------
  // The row adapter

  /** A JavaScript number: NaN or a (finite) value. */
  datatype JsNum = NaN | Num(x: real)

  /** `Number(v)` for a nullable numeric column: null becomes 0. */
  function ToNumber(v: Option<JsNum>): (n: JsNum)
    ensures v.None? ==> n == Num(0.0)
    ensures v.Some? ==> n == v.value
  {
    if v.None? then Num(0.0) else v.value
  }

  /** `Number(v) || d`: null, 0 and NaN all give the default. */
  function OrDefault(v: Option<JsNum>, d: real): (r: real)
    ensures (v.Some? && v.value.Num? && v.value.x != 0.0) ==> r == v.value.x
    ensures (v.None? || v.value == NaN || v.value == Num(0.0)) ==> r == d
  {
    match ToNumber(v)
    case Num(x) => if x != 0.0 then x else d
    case NaN => d
  }

  /** `v ?? d`: only null gives the default; 0 and NaN are kept. */
  function OrIfNull(v: Option<JsNum>, d: real): (r: JsNum)
    ensures v.None? ==> r == Num(d)
    ensures v.Some? ==> r == v.value
  {
    if v.None? then Num(d) else v.value
  }

  /** The columns of a `matches` row the adapter reads; `None` is SQL null. */
  datatype DbMatch = DbMatch(
    id: string, league: string, homeTeam: string, awayTeam: string,
    homeElo: Option<JsNum>, awayElo: Option<JsNum>,
    homeLambda: Option<JsNum>, awayLambda: Option<JsNum>,
    homeWinProb: Option<JsNum>, drawProb: Option<JsNum>, awayWinProb: Option<JsNum>,
    homeOdds: Option<JsNum>, drawOdds: Option<JsNum>, awayOdds: Option<JsNum>,
    kickoff: Option<string>, status: Option<string>,
    homeXg: Option<JsNum>, awayXg: Option<JsNum>, homePpda: Option<JsNum>, awayPpda: Option<JsNum>,
    homeLogo: Option<string>, awayLogo: Option<string>)

  /** The match shape the components use. */
  datatype ClientMatch = ClientMatch(
    id: string, league: string, homeTeam: string, awayTeam: string,
    homeElo: JsNum, awayElo: JsNum,
    homeLambda: real, awayLambda: real,
    homeWinProb: real, drawProb: real, awayWinProb: real,
    homeOdds: real, drawOdds: real, awayOdds: real,
    kickoff: string, status: string,
    homeXg: real, awayXg: real, homePpda: real, awayPpda: real,
    homeLogo: Option<string>, awayLogo: Option<string>)

  /**
   * `dbMatchToMatch`. `formatTime` stands for the locale time rendering of a
   * kickoff timestamp.
   */
  function DbMatchToMatch(m: DbMatch, formatTime: string -> string): (c: ClientMatch)
    ensures c.id == m.id && c.league == m.league && c.homeTeam == m.homeTeam && c.awayTeam == m.awayTeam
    ensures c.homeLogo == m.homeLogo && c.awayLogo == m.awayLogo
    ensures c.homeElo == OrIfNull(m.homeElo, 1500.0) && c.awayElo == OrIfNull(m.awayElo, 1500.0)
    ensures c.homeLambda == OrDefault(m.homeLambda, 1.35) && c.awayLambda == OrDefault(m.awayLambda, 1.2)
    ensures c.homeWinProb == OrDefault(m.homeWinProb, 0.33) && c.drawProb == OrDefault(m.drawProb, 0.33)
      && c.awayWinProb == OrDefault(m.awayWinProb, 0.33)
    ensures c.homeOdds == OrDefault(m.homeOdds, 2.0) && c.drawOdds == OrDefault(m.drawOdds, 3.5)
      && c.awayOdds == OrDefault(m.awayOdds, 3.0)
    ensures c.homeXg == OrDefault(m.homeXg, 0.0) && c.awayXg == OrDefault(m.awayXg, 0.0)
      && c.homePpda == OrDefault(m.homePpda, 0.0) && c.awayPpda == OrDefault(m.awayPpda, 0.0)
    ensures c.kickoff == (if Truthy(m.kickoff) then formatTime(m.kickoff.value) + " CET" else "TBD")
    ensures Truthy(m.status) ==> c.status == m.status.value
    ensures !Truthy(m.status) ==> c.status == "upcoming"
  {
    ClientMatch(
      m.id, m.league, m.homeTeam, m.awayTeam,
      OrIfNull(m.homeElo, 1500.0), OrIfNull(m.awayElo, 1500.0),
      OrDefault(m.homeLambda, 1.35), OrDefault(m.awayLambda, 1.2),
      OrDefault(m.homeWinProb, 0.33), OrDefault(m.drawProb, 0.33), OrDefault(m.awayWinProb, 0.33),
      OrDefault(m.homeOdds, 2.0), OrDefault(m.drawOdds, 3.5), OrDefault(m.awayOdds, 3.0),
      if Truthy(m.kickoff) then formatTime(m.kickoff.value) + " CET" else "TBD",
      if Truthy(m.status) then m.status.value else "upcoming",
      OrDefault(m.homeXg, 0.0), OrDefault(m.awayXg, 0.0), OrDefault(m.homePpda, 0.0), OrDefault(m.awayPpda, 0.0),
      m.homeLogo, m.awayLogo)
  }

  /** Where `??` and `||` part ways: a stored 0 Elo is kept, a stored 0 rate is replaced. */
  lemma ZeroEloKeptZeroRateReplaced(m: DbMatch, formatTime: string -> string)
    requires m.homeElo == Some(Num(0.0)) && m.homeLambda == Some(Num(0.0))
    ensures DbMatchToMatch(m, formatTime).homeElo == Num(0.0)
    ensures DbMatchToMatch(m, formatTime).homeLambda == 1.35
  {
  }

  /** The rates, probabilities and odds the adapter yields are never 0, whatever is stored. */
  lemma DefaultedFieldsNonZero(m: DbMatch, formatTime: string -> string)
    ensures var c := DbMatchToMatch(m, formatTime);
      && c.homeLambda != 0.0 && c.awayLambda != 0.0
      && c.homeWinProb != 0.0 && c.drawProb != 0.0 && c.awayWinProb != 0.0
      && c.homeOdds != 0.0 && c.drawOdds != 0.0 && c.awayOdds != 0.0
  {
  }

  /** The status is never empty, but it is not checked against "upcoming" / "live" / "finished". */
  lemma StatusPassesThrough(m: DbMatch, formatTime: string -> string)
    ensures DbMatchToMatch(m, formatTime).status != ""
    ensures Truthy(m.status) ==> DbMatchToMatch(m, formatTime).status == m.status.value
  {
  }
}
