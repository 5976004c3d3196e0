/**
 * The pure logic of the xG enricher: reading team rows out of a scraped
 * markdown table, turning season xG into a goal rate, the 7 × 7 1X2 figures,
 * and the team-name normalisation and fuzzy matching used to pair scraped
 * rows with stored matches.
 *
 * `parseFloat` is not modelled: it is a parameter mapping a cell to its
 * number, None standing for NaN. `Math.random` is a parameter too: `random(k)`
 * is the value of the k-th call.
 */
module EnrichXg {
  import opened Options
  import opened Js
  import opened GridSums
  import opened Poisson
  import opened Outcomes

  datatype TeamXg = TeamXg(team: string, xgFor: real, xgAgainst: real, gamesPlayed: real, ppda: real)

  // ---------------------------------------------------------------------------
  // One table row

  predicate NonEmpty(c: string) { c != "" }

  /** `.map((c) => c.trim())`. */
  function TrimAll(parts: seq<string>): (r: seq<string>)
    ensures |r| == |parts| && forall k :: 0 <= k < |parts| ==> r[k] == Trim(parts[k])
  {
    if parts == [] then [] else [Trim(parts[0])] + TrimAll(parts[1..])
  }

  /** A cell as the row parser leaves it: non-empty, no "|", no whitespace at either end. */
  predicate IsCell(c: string)
  {
    c != "" && '|' !in c && !IsWhitespace(c[0]) && !IsWhitespace(c[|c| - 1])
  }

  /** The cells of a row: split on "|", trimmed, empty ones dropped. */
  function Cells(line: string): (cells: seq<string>)
    ensures |cells| <= |Split(line, '|')|
  {
    Filter(TrimAll(Split(line, '|')), NonEmpty)
  }

  /** A piece without "|" that does not trim to nothing trims to a cell. */
  lemma TrimmedPieceIsCell(p: string)
    requires '|' !in p && Trim(p) != ""
    ensures IsCell(Trim(p))
  {
    TrimChars(p);
  }

  /** One cell of a row is a trimmed piece of it that was not empty. */
  lemma CellShape(line: string, k: nat)
    requires k < |Cells(line)|
    ensures IsCell(Cells(line)[k])
  {
    var parts := Split(line, '|');
    var trimmed := TrimAll(parts);
    var c := Cells(line)[k];
    assert c in trimmed && NonEmpty(c);
    var j :| 0 <= j < |trimmed| && trimmed[j] == c;
    TrimmedPieceIsCell(parts[j]);
  }

  /** Every cell of a row is non-empty, holds no "|", and has no whitespace at either end. */
  lemma CellsShape(line: string)
    ensures forall k :: 0 <= k < |Cells(line)| ==> IsCell(Cells(line)[k])
  {
    forall k | 0 <= k < |Cells(line)|
      ensures IsCell(Cells(line)[k])
    {
      CellShape(line, k);
    }
  }

  /**
   * The cells of a row written as pieces joined by "|" are those pieces,
   * trimmed, with the empty ones dropped, in their order.
   */
  lemma CellsOfPieces(pieces: seq<string>)
    requires |pieces| >= 1 && forall k :: 0 <= k < |pieces| ==> '|' !in pieces[k]
    ensures Cells(Join(pieces, '|')) == Filter(TrimAll(pieces), NonEmpty)
  {
    SplitJoin(pieces, '|');
  }

  /** Some cell of `cells` parses to `v`. */
  predicate ParsedFrom(v: real, cells: seq<string>, parseFloat: string -> Option<real>)
  {
    exists c :: c in cells && parseFloat(c) == Some(v)
  }

  /** `cells.map(parseFloat).filter(n => !isNaN(n))`: the numbers the cells parse to, in cell order. */
  function Numbers(cells: seq<string>, parseFloat: string -> Option<real>): (nums: seq<real>)
    ensures |nums| <= |cells|
  {
    if cells == [] then []
    else (match parseFloat(cells[0]) case Some(v) => [v] case None => []) + Numbers(cells[1..], parseFloat)
  }

  /** Every number kept is the parse of one of the cells. */
  lemma {:induction false} NumbersParsed(cells: seq<string>, parseFloat: string -> Option<real>)
    ensures forall i :: 0 <= i < |Numbers(cells, parseFloat)| ==> ParsedFrom(Numbers(cells, parseFloat)[i], cells, parseFloat)
  {
    if cells != [] {
      var rest := Numbers(cells[1..], parseFloat);
      NumbersParsed(cells[1..], parseFloat);
      forall i | 0 <= i < |rest|
        ensures ParsedFrom(rest[i], cells, parseFloat)
      {
        var c :| c in cells[1..] && parseFloat(c) == Some(rest[i]);
        assert c in cells;
      }
    }
  }

  /** Parsing works cell by cell: the numbers of a concatenation are those of each part, in order. */
  lemma {:induction false} NumbersAppend(a: seq<string>, b: seq<string>, parseFloat: string -> Option<real>)
    ensures Numbers(a + b, parseFloat) == Numbers(a, parseFloat) + Numbers(b, parseFloat)
  {
    if a == [] {
      assert a + b == b;
    } else {
      assert (a + b)[0] == a[0];
      assert (a + b)[1..] == a[1..] + b;
      NumbersAppend(a[1..], b, parseFloat);
    }
  }

  /** A cell that does not parse adds nothing; one that parses adds its number. */
  lemma NumbersOne(c: string, parseFloat: string -> Option<real>)
    ensures Numbers([c], parseFloat) == match parseFloat(c) case Some(v) => [v] case None => []
  {
    assert [c][1..] == [];
  }

  predicate XgLike(v: real) { 5.0 < v < 120.0 }

  /** Position i and its successor both look like season xG. */
  predicate PairAt(nums: seq<real>, i: nat)
  {
    i + 1 < |nums| && XgLike(nums[i]) && XgLike(nums[i + 1])
  }

  /** The first position i ≥ from whose value and successor both look like season xG. */
  function FirstPairFrom(nums: seq<real>, from: nat): (r: Option<nat>)
    decreases |nums| - from
    ensures r.Some? ==>
      from <= r.value && PairAt(nums, r.value) && forall i: nat :: from <= i < r.value ==> !PairAt(nums, i)
    ensures r.None? ==> forall i: nat :: from <= i ==> !PairAt(nums, i)
  {
    if from + 1 >= |nums| then None
    else if PairAt(nums, from) then Some(from)
    else FirstPairFrom(nums, from + 1)
  }

  /** The games played: the first number when it lies in (0, 50), otherwise 0. */
  function GamesPlayed(nums: seq<real>): (gp: real)
    requires nums != []
    ensures gp == 0.0 || 0.0 < gp < 50.0
  {
    if nums[0] > 0.0 && nums[0] < 50.0 then nums[0] else 0.0
  }

  /** What a table row yields: its team, xG for, xG against and games played. */
  datatype Row = Row(team: string, xgFor: real, xgAgainst: real, gamesPlayed: real)

  /** The (xG for, xG against) the scan finds: the first xG-like pair after the games played, or (0, 0). */
  function XgPair(nums: seq<real>): (r: (real, real))
    ensures r == (0.0, 0.0) || (XgLike(r.0) && XgLike(r.1))
  {
    match FirstPairFrom(nums, 1)
    case Some(i) => (nums[i], nums[i + 1])
    case None => (0.0, 0.0)
  }

  /**
   * The row kept for a team name, games played and scanned xG pair: kept when
   * the name is longer than 2 characters and the games played are positive, a
   * missing xG figure replaced by 1.3 (for) or 1.2 (against) goals per game.
   */
  function MakeRow(team: string, gp: real, xf: real, xa: real): Option<Row>
  {
    if |team| > 2 && gp > 0.0 then
      Some(Row(team, if xf > 0.0 then xf else gp * 1.3, if xa > 0.0 then xa else gp * 1.2, gp))
    else None
  }

  /** The rest of a row once its team name and numbers are known. */
  function RowOf(team: string, nums: seq<real>): Option<Row>
    requires nums != []
  {
    MakeRow(team, GamesPlayed(nums), XgPair(nums).0, XgPair(nums).1)
  }

  /**
   * The row a line yields, or None when the line is skipped: no "|", fewer than
   * 5 cells, a first cell that is empty, "Squad" or starts with "-", fewer than
   * 3 numbers after the first cell, a team name of 2 characters or fewer, or no
   * games played.
   */
  function ParseLine(line: string, parseFloat: string -> Option<real>): Option<Row>
  {
    if '|' !in line then None
    else
      var cells := Cells(line);
      if |cells| < 5 then None
      else
        var team := cells[0];
        if team == "" || team == "Squad" || team[0] == '-' then None
        else
          var nums := Numbers(cells[1..], parseFloat);
          if |nums| < 3 then None
          else RowOf(team, nums)
  }

  /** A line yields a row only when it passes every check, and the row's figures are positive. */
  lemma ParseLineChecks(line: string, parseFloat: string -> Option<real>)
    ensures var r := ParseLine(line, parseFloat);
      r.Some? ==>
        && '|' in line
        && |Cells(line)| >= 5
        && r.value.team == Cells(line)[0]
        && r.value.team != "Squad" && r.value.team[0] != '-' && |r.value.team| > 2
        && |Numbers(Cells(line)[1..], parseFloat)| >= 3
        && 0.0 < r.value.gamesPlayed < 50.0
        && r.value.xgFor > 0.0 && r.value.xgAgainst > 0.0
    ensures '|' !in line || |Cells(line)| < 5 ==> ParseLine(line, parseFloat) == None
  {
  }

  /** When the row holds a pair of xG-like neighbours after the games played, the first pair is used. */
  lemma XgFromFirstPair(line: string, parseFloat: string -> Option<real>)
    requires ParseLine(line, parseFloat).Some?
    ensures var nums := Numbers(Cells(line)[1..], parseFloat);
      var row := ParseLine(line, parseFloat).value;
      match FirstPairFrom(nums, 1)
      case Some(i) => row.xgFor == nums[i] && row.xgAgainst == nums[i + 1]
      case None => row.xgFor == row.gamesPlayed * 1.3 && row.xgAgainst == row.gamesPlayed * 1.2
  {
    ParseLineRow(line, parseFloat);
    RowOfFirstPair(Cells(line)[0], Numbers(Cells(line)[1..], parseFloat));
  }

  /** A row that is kept is the row of its first cell and the numbers after it. */
  lemma ParseLineRow(line: string, parseFloat: string -> Option<real>)
    requires ParseLine(line, parseFloat).Some?
    ensures |Cells(line)| >= 5 && Numbers(Cells(line)[1..], parseFloat) != []
    ensures ParseLine(line, parseFloat) == RowOf(Cells(line)[0], Numbers(Cells(line)[1..], parseFloat))
  {
  }

  /** The xG figures of a kept row come from the first xG-like pair, or from the per-game fallbacks. */
  lemma RowOfFirstPair(team: string, nums: seq<real>)
    requires nums != [] && RowOf(team, nums).Some?
    ensures var row := RowOf(team, nums).value;
      match FirstPairFrom(nums, 1)
      case Some(i) => row.xgFor == nums[i] && row.xgAgainst == nums[i + 1]
      case None => row.xgFor == row.gamesPlayed * 1.3 && row.xgAgainst == row.gamesPlayed * 1.2
  {
  }

  /** The placeholder PPDA, 8 + 6·u rounded to one decimal. */
  function Ppda(u: real): real
  {
    RoundTo(8.0 + u * 6.0, 10)
  }

  /** For u in [0, 1) the placeholder PPDA lies in [8, 14]. */
  lemma PpdaRange(u: real)
    requires 0.0 <= u < 1.0
    ensures 8.0 <= Ppda(u) <= 14.0
  {
    RoundToMonotone(8.0, 8.0 + u * 6.0, 10);
    RoundToMonotone(8.0 + u * 6.0, 14.0, 10);
    assert RoundTo(8.0, 10) == 8.0 by {
      assert Round(80.0) == 80;
    }
    assert RoundTo(14.0, 10) == 14.0 by {
      assert Round(140.0) == 140;
    }
  }

  /** The row each line yields, in line order. */
  function ParsedRows(lines: seq<string>, parseFloat: string -> Option<real>): (rows: seq<Option<Row>>)
    ensures |rows| == |lines| && forall i :: 0 <= i < |lines| ==> rows[i] == ParseLine(lines[i], parseFloat)
  {
    if lines == [] then []
    else ParsedRows(lines[..|lines| - 1], parseFloat) + [ParseLine(lines[|lines| - 1], parseFloat)]
  }

  /** One more line adds its row at the end. */
  lemma ParsedRowsSnoc(lines: seq<string>, n: nat, parseFloat: string -> Option<real>)
    requires n < |lines|
    ensures ParsedRows(lines[..n + 1], parseFloat) == ParsedRows(lines[..n], parseFloat) + [ParseLine(lines[n], parseFloat)]
  {
    assert lines[..n + 1][..n] == lines[..n];
  }

  /** The entries pushed for a sequence of parsed rows, the k-th entry drawing the k-th random number. */
  function EmitRows(rows: seq<Option<Row>>, random: nat -> real): (teams: seq<TeamXg>)
    ensures |teams| <= |rows|
  {
    if rows == [] then []
    else
      var prev := EmitRows(rows[..|rows| - 1], random);
      match rows[|rows| - 1]
      case None => prev
      case Some(row) => prev + [TeamXg(row.team, row.xgFor, row.xgAgainst, row.gamesPlayed, Ppda(random(|prev|)))]
  }

  /** One more row adds its entry, if any, at the end. */
  lemma EmitRowsSnoc(rows: seq<Option<Row>>, row: Option<Row>, random: nat -> real)
    ensures EmitRows(rows + [row], random) ==
      var prev := EmitRows(rows, random);
      if row.Some? then
        prev + [TeamXg(row.value.team, row.value.xgFor, row.value.xgAgainst, row.value.gamesPlayed, Ppda(random(|prev|)))]
      else prev
  {
    assert (rows + [row])[..|rows|] == rows;
  }

  /** The entries read from `lines`. */
  function Emitted(lines: seq<string>, parseFloat: string -> Option<real>, random: nat -> real)
    : (teams: seq<TeamXg>)
    ensures |teams| <= |lines|
  {
    EmitRows(ParsedRows(lines, parseFloat), random)
  }

  /** What the final check of the loop body lets through. */
  predicate Passed(row: Row)
  {
    0.0 < row.gamesPlayed < 50.0 && |row.team| > 2 && row.xgFor > 0.0 && row.xgAgainst > 0.0
  }

  /** Entries are only pushed for rows that passed. */
  lemma {:induction false} EmitRowsPassed(rows: seq<Option<Row>>, random: nat -> real)
    requires forall i :: 0 <= i < |rows| && rows[i].Some? ==> Passed(rows[i].value)
    ensures forall e :: e in EmitRows(rows, random) ==>
      0.0 < e.gamesPlayed < 50.0 && |e.team| > 2 && e.xgFor > 0.0 && e.xgAgainst > 0.0
  {
    if rows != [] {
      EmitRowsPassed(rows[..|rows| - 1], random);
    }
  }

  /** Every emitted entry comes from a row that passed all the checks. */
  lemma EmittedValid(lines: seq<string>, parseFloat: string -> Option<real>, random: nat -> real)
    ensures forall e :: e in Emitted(lines, parseFloat, random) ==>
      0.0 < e.gamesPlayed < 50.0 && |e.team| > 2 && e.xgFor > 0.0 && e.xgAgainst > 0.0
  {
    var rows := ParsedRows(lines, parseFloat);
    forall i | 0 <= i < |rows| && rows[i].Some?
      ensures Passed(rows[i].value)
    {
      ParseLineChecks(lines[i], parseFloat);
    }
    EmitRowsPassed(rows, random);
  }

  /** The entries of the first n rows come first. */
  lemma {:induction false} EmitRowsPrefix(rows: seq<Option<Row>>, n: nat, random: nat -> real)
    requires n <= |rows|
    ensures EmitRows(rows[..n], random) <= EmitRows(rows, random)
  {
    if n < |rows| {
      var init := rows[..|rows| - 1];
      EmitRowsPrefix(init, n, random);
      assert init[..n] == rows[..n];
    } else {
      assert rows[..n] == rows;
    }
  }

  /** The entries of the first n lines come first: entries follow line order. */
  lemma EmittedPrefix(lines: seq<string>, n: nat, parseFloat: string -> Option<real>, random: nat -> real)
    requires n <= |lines|
    ensures Emitted(lines[..n], parseFloat, random) <= Emitted(lines, parseFloat, random)
  {
    var rows := ParsedRows(lines, parseFloat);
    assert ParsedRows(lines[..n], parseFloat) == rows[..n];
    EmitRowsPrefix(rows, n, random);
  }

  /**
   * The body of the parser's loop for one line, up to the push: each
   * `continue` of the source is a `return` with no row.
   */
  method ParseRow(line: string, parseFloat: string -> Option<real>) returns (row: Option<Row>)
    ensures row == ParseLine(line, parseFloat)
  {
    if '|' !in line { return None; }
    var cells := Cells(line);
    if |cells| < 5 { return None; }
    var teamName := cells[0];
    if teamName == "" || teamName == "Squad" || teamName[0] == '-' { return None; }
    var numericCells := Numbers(cells[1..], parseFloat);
    if |numericCells| < 3 { return None; }
    row := RowFromNumbers(teamName, numericCells);
  }

  /**
   * The rest of the loop body: the games played, the scan for the first pair
   * of neighbours i, i + 1 (i ≥ 1) both in (5, 120), taken as xG for and
   * against, and the final check before the push.
   */
  method RowFromNumbers(teamName: string, numericCells: seq<real>) returns (row: Option<Row>)
    requires |numericCells| >= 3
    ensures row == RowOf(teamName, numericCells)
  {
    var xgFor, xgAgainst := 0.0, 0.0;
    var gamesPlayed := if numericCells[0] > 0.0 && numericCells[0] < 50.0 then numericCells[0] else 0.0;
    var i := 1;
    while i < |numericCells|
      invariant 1 <= i
      invariant xgFor == 0.0 && xgAgainst == 0.0
      invariant FirstPairFrom(numericCells, 1) == FirstPairFrom(numericCells, i)
    {
      var val := numericCells[i];
      if val > 5.0 && val < 120.0 && xgFor == 0.0 {
        if i + 1 < |numericCells| {
          var nextVal := numericCells[i + 1];
          if nextVal > 5.0 && nextVal < 120.0 {
            xgFor := val;
            xgAgainst := nextVal;
            break;
          }
        }
      }
      i := i + 1;
    }
    assert (xgFor, xgAgainst) == XgPair(numericCells);
    if |teamName| > 2 && gamesPlayed > 0.0 {
      row := Some(Row(teamName, if xgFor > 0.0 then xgFor else gamesPlayed * 1.3,
                      if xgAgainst > 0.0 then xgAgainst else gamesPlayed * 1.2, gamesPlayed));
    } else {
      row := None;
    }
  }

  /** `parseXgFromMarkdown`: the markdown split into lines, then one pass over them. */
  method ParseXgFromMarkdown(markdown: string, parseFloat: string -> Option<real>, random: nat -> real)
    returns (teams: seq<TeamXg>)
    ensures teams == Emitted(Split(markdown, '\n'), parseFloat, random)
  {
    var lines := Split(markdown, '\n');
    teams := ParseLines(lines, parseFloat, random);
  }

  /** The `for … of` loop of `parseXgFromMarkdown`: an entry is pushed for each row that passes. */
  method ParseLines(lines: seq<string>, parseFloat: string -> Option<real>, random: nat -> real)
    returns (teams: seq<TeamXg>)
    ensures teams == Emitted(lines, parseFloat, random)
  {
    teams := [];
    ghost var rows: seq<Option<Row>> := [];
    var n := 0;
    while n < |lines|
      invariant 0 <= n <= |lines|
      invariant rows == ParsedRows(lines[..n], parseFloat)
      invariant teams == EmitRows(rows, random)
    {
      var row := ParseRow(lines[n], parseFloat);
      EmitRowsSnoc(rows, row, random);
      ParsedRowsSnoc(lines, n, parseFloat);
      if row.Some? {
        teams := teams + [TeamXg(row.value.team, row.value.xgFor, row.value.xgAgainst,
                                 row.value.gamesPlayed, Ppda(random(|teams|)))];
      }
      rows := rows + [row];
      n := n + 1;
    }
    assert lines[..n] == lines;
  }


  // ---------------------------------------------------------------------------
  // Rates and 1X2 figures

  /**
   * `computeLambda`: 1.3 without games played, otherwise xG per game times the
   * home (1.1) or away (0.9) factor, rounded to two decimals. xG against is
   * not used.
   */
  function ComputeLambda(xgFor: real, xgAgainst: real, gamesPlayed: real, isHome: bool): (l: real)
    ensures gamesPlayed == 0.0 ==> l == 1.3
    ensures gamesPlayed != 0.0 ==>
      var target := xgFor / gamesPlayed * (if isHome then 1.1 else 0.9);
      target - 0.005 < l <= target + 0.005
    ensures OnGrain(l, 100)
  {
    if gamesPlayed == 0.0 then
      assert (1.3 * (100 as real)).Floor == 130;
      1.3
    else RoundTo(xgFor / gamesPlayed * (if isHome then 1.1 else 0.9), 100)
  }

  /** With the same figures, the home rate is never below the away rate. */
  lemma HomeRateAtLeastAway(xgFor: real, xgAgainst: real, gamesPlayed: real)
    requires xgFor >= 0.0 && gamesPlayed > 0.0
    ensures ComputeLambda(xgFor, xgAgainst, gamesPlayed, true) >= ComputeLambda(xgFor, xgAgainst, gamesPlayed, false)
  {
    var perGame := xgFor / gamesPlayed;
    assert perGame >= 0.0;
    RoundToMonotone(perGame * 0.9, perGame * 1.1, 100);
  }

  /** Changing xG against never changes the rate. */
  lemma RateIgnoresXgAgainst(xgFor: real, a1: real, a2: real, gamesPlayed: real, isHome: bool)
    ensures ComputeLambda(xgFor, a1, gamesPlayed, isHome) == ComputeLambda(xgFor, a2, gamesPlayed, isHome)
  {
  }

  /** Goals 0..6. */
  const Size: nat := 7

  /**
   * `computeProbs`: accumulates pmf(i; λH) · pmf(j; λA) over the 7 × 7 grid into
   * the home-win, draw and away-win totals and rounds each to three decimals.
   * The inner loop over j is the method `AddRow`.
   */
  method ComputeProbs(home: Rate, away: Rate) returns (probs: Probs)
    ensures probs == RoundedOutcomes(PoissonGrid(home, away, Size))
  {
    ghost var g := PoissonGrid(home, away, Size);
    var homeWin, draw, awayWin := 0.0, 0.0, 0.0;
    var i := 0;
    while i <= 6
      invariant 0 <= i <= Size
      invariant homeWin == GridSum(g[..i], HomeWin)
      invariant draw == GridSum(g[..i], Draw)
      invariant awayWin == GridSum(g[..i], AwayWin)
    {
      GridSumStep(g, i, HomeWin);
      GridSumStep(g, i, Draw);
      GridSumStep(g, i, AwayWin);
      homeWin, draw, awayWin := AddRow(home, away, i, homeWin, draw, awayWin);
      i := i + 1;
    }
    assert g[..i] == g;
    probs := Probs(RoundTo(homeWin, 1000), RoundTo(draw, 1000), RoundTo(awayWin, 1000));
  }

  /**
   * One pass of the inner loop of `computeProbs`: each cell p of row i is added
   * to the home-win (i > j), draw (i = j) or away-win (i < j) total.
   */
  method AddRow(home: Rate, away: Rate, i: nat, h0: real, d0: real, a0: real)
    returns (homeWin: real, draw: real, awayWin: real)
    requires i < Size
    ensures homeWin == h0 + RowSum(PoissonGrid(home, away, Size)[i], i, HomeWin)
    ensures draw == d0 + RowSum(PoissonGrid(home, away, Size)[i], i, Draw)
    ensures awayWin == a0 + RowSum(PoissonGrid(home, away, Size)[i], i, AwayWin)
  {
    ghost var row := PoissonGrid(home, away, Size)[i];
    homeWin, draw, awayWin := h0, d0, a0;
    var j := 0;
    while j <= 6
      invariant 0 <= j <= Size
      invariant homeWin == h0 + RowSum(row[..j], i, HomeWin)
      invariant draw == d0 + RowSum(row[..j], i, Draw)
      invariant awayWin == a0 + RowSum(row[..j], i, AwayWin)
    {
      var pH := Pmf(home, i);
      var pA := Pmf(away, j);
      var p := pH * pA;
      assert p == row[j];
      RowSumStep(row, i, j, HomeWin);
      RowSumStep(row, i, j, Draw);
      RowSumStep(row, i, j, AwayWin);
      if i > j {
        homeWin := homeWin + p;
      } else if i == j {
        draw := draw + p;
      } else {
        awayWin := awayWin + p;
      }
      j := j + 1;
    }
    assert row[..j] == row;
  }

  // ---------------------------------------------------------------------------
  // Team names

  /** The club tokens the first replacement removes, each with its trailing space. */
  const ClubTokens: seq<string> := ["fc ", "cf ", "afc ", "sc ", "ssc ", "as ", "ac ", "us ", "rc ",
                                    "rcd ", "ud ", "cd ", "sd ", "ca ", "se ", "ss ", "fk "]

  /** The first token, in the pattern's order, that `s` starts with. */
  function TokenAt(s: string, from: nat): (t: Option<string>)
    decreases |ClubTokens| - from
    ensures t.Some? ==> t.value in ClubTokens && t.value <= s
    ensures t.None? ==> forall k :: from <= k < |ClubTokens| ==> !(ClubTokens[k] <= s)
  {
    if from >= |ClubTokens| then None
    else if ClubTokens[from] <= s then Some(ClubTokens[from])
    else TokenAt(s, from + 1)
  }

  /**
   * The global, case-insensitive replacement of the club tokens by "": scanning
   * left to right, a token found at the current position is dropped and the
   * scan resumes after it; otherwise the character is kept. There is no word
   * boundary, so a token can be cut from the end of a longer word.
   */
  function StripClubTokens(s: string): (r: string)
    decreases |s|
    ensures |r| <= |s|
    ensures forall c :: c in r ==> c in s
  {
    if s == [] then []
    else match TokenAt(s, 0)
      case Some(t) => StripClubTokens(s[|t|..])
      case None => [s[0]] + StripClubTokens(s[1..])
  }

  /** Every club token is letters followed by exactly one space, at its end. */
  lemma TokenShape(t: string)
    requires t in ClubTokens
    ensures |t| >= 2 && t[|t| - 1] == ' ' && forall i :: 0 <= i < |t| - 1 ==> t[i] != ' '
  {
  }

  /** No club token is a prefix of another token followed by anything: tokens never overlap at one position. */
  lemma TokenPrefixUnique(t: string, u: string, s: string)
    requires t in ClubTokens && u in ClubTokens && u <= t + s
    ensures u == t
  {
    TokenShape(t);
    TokenShape(u);
    var m := if |u| <= |t| then |u| else |t|;
    assert u[m - 1] == (t + s)[m - 1] == t[m - 1];
    assert |u| == |t|;
    assert u == (t + s)[..|u|] == t;
  }

  /** A club token at the start of the name is removed, and the scan goes on after it. */
  lemma StripLeadingToken(t: string, s: string)
    requires t in ClubTokens
    ensures StripClubTokens(t + s) == StripClubTokens(s)
  {
    var k :| 0 <= k < |ClubTokens| && ClubTokens[k] == t;
    assert t <= t + s;
    var found := TokenAt(t + s, 0);
    assert found.Some?;
    TokenPrefixUnique(t, found.value, s);
    assert (t + s)[|t|..] == s;
  }

  /** No club token starts at the front of `s`. */
  predicate NoTokenAt(s: string)
  {
    forall t :: t in ClubTokens ==> !(t <= s)
  }

  /** A name in which no club token starts anywhere is left unchanged. */
  lemma {:induction false} StripNoToken(s: string)
    requires forall i :: 0 <= i < |s| ==> NoTokenAt(s[i..])
    ensures StripClubTokens(s) == s
  {
    if s != [] {
      assert s[0..] == s;
      assert TokenAt(s, 0).None?;
      forall i | 0 <= i < |s[1..]|
        ensures NoTokenAt(s[1..][i..])
      {
        assert s[1..][i..] == s[i + 1..];
      }
      StripNoToken(s[1..]);
      assert [s[0]] + s[1..] == s;
    }
  }

  /** Every club token ends in a space, so no token starts a text without one. */
  lemma NoSpaceNoToken(s: string)
    requires ' ' !in s
    ensures NoTokenAt(s)
  {
    forall t | t in ClubTokens
      ensures !(t <= s)
    {
      TokenShape(t);
      if |t| <= |s| {
        assert s[|t| - 1] != ' ';
      }
    }
  }

  /** A word without spaces keeps all its letters. */
  lemma StripNoSpace(s: string)
    requires ' ' !in s
    ensures StripClubTokens(s) == s
  {
    forall i | 0 <= i < |s|
      ensures NoTokenAt(s[i..])
    {
      NoSpaceNoToken(s[i..]);
    }
    StripNoToken(s);
  }

  /** A letter no club token starts with is kept, and the scan moves past it. */
  lemma StripKeepsLetter(c: char, s: string)
    requires forall k :: 0 <= k < |ClubTokens| ==> ClubTokens[k][0] != c
    ensures StripClubTokens([c] + s) == [c] + StripClubTokens(s)
  {
    assert TokenAt([c] + s, 0).None?;
    assert ([c] + s)[1..] == s;
  }

  /** No club token starts with "l". */
  lemma NoTokenStartsWithL()
    ensures forall k :: 0 <= k < |ClubTokens| ==> ClubTokens[k][0] != 'l'
  {
    assert ClubTokens[0][0] == 'f';
  }

  /** Without a word boundary, "as " is also cut from the end of "las": "las palmas" becomes "lpalmas". */
  lemma LasPalmas(name: string)
    requires name == "las palmas"
    ensures StripClubTokens(name) == "lpalmas"
  {
    var rest := name[4..];
    var token := name[1..4];
    assert name == [name[0]] + (token + rest);
    assert token == "as " && token in ClubTokens;
    assert ' ' !in rest;
    assert [name[0]] + rest == "lpalmas";
    NoTokenStartsWithL();
    StripKeepsLetter(name[0], token + rest);
    StripLeadingToken(token, rest);
    StripNoSpace(rest);
  }

  /** `\w` of a regular expression. */
  predicate IsWordChar(c: char)
  {
    'a' <= c <= 'z' || 'A' <= c <= 'Z' || '0' <= c <= '9' || c == '_'
  }

  /** `\b` before position p when s[p] is a word character. */
  predicate BoundaryBefore(s: string, p: nat)
    requires p <= |s|
  {
    p == 0 || !IsWordChar(s[p - 1])
  }

  /**
   * The replacement of `\b(fc|cf|afc|sc)$` by "": a trailing "afc", "fc", "cf"
   * or "sc" that starts a word is cut off.
   */
  function StripTrailingSuffix(s: string): (r: string)
    ensures r <= s
    ensures |s| - |r| in {0, 2, 3}
    ensures |s| - |r| == 3 <==> |s| >= 3 && s[|s| - 3..] == "afc" && BoundaryBefore(s, |s| - 3)
    ensures |s| - |r| == 2 <==>
      |s| >= 2 && s[|s| - 2..] in ["fc", "cf", "sc"] && BoundaryBefore(s, |s| - 2)
  {
    var n := |s|;
    assert n >= 3 && s[n - 3..] == "afc" ==> s[n - 3] == 'a' && s[n - 2..] == "fc";
    if n >= 3 && s[n - 3..] == "afc" && BoundaryBefore(s, n - 3) then s[..n - 3]
    else if n >= 2 && (s[n - 2..] == "fc" || s[n - 2..] == "cf" || s[n - 2..] == "sc")
         && BoundaryBefore(s, n - 2) then s[..n - 2]
    else s
  }

  predicate IsNameChar(c: char)
  {
    'a' <= c <= 'z' || '0' <= c <= '9' || c == ' '
  }

  /** `normalizeTeamName`: lower case, club tokens and suffix removed, only [a-z0-9 ] kept, trimmed. */
  function NormalizeTeamName(name: string): (r: string)
    ensures forall c :: c in r ==> IsNameChar(c)
    ensures r == [] || (r[0] != ' ' && r[|r| - 1] != ' ')
  {
    var kept := Filter(StripTrailingSuffix(StripClubTokens(ToLower(name))), IsNameChar);
    assert forall c :: c in kept ==> IsNameChar(c) by {
      forall c | c in kept
        ensures IsNameChar(c)
      {
        var k :| 0 <= k < |kept| && kept[k] == c;
      }
    }
    Trim(kept)
  }

  /** The words of `a` longer than 3 characters that are also words of `b`. */
  function Overlap(a: string, b: string): seq<string>
  {
    var wordsB := Split(b, ' ');
    Filter(Split(a, ' '), (w: string) => w in wordsB && |w| > 3)
  }

  predicate SharesLongWord(a: string, b: string)
  {
    exists w :: w in Split(a, ' ') && w in Split(b, ' ') && |w| > 3
  }

  lemma OverlapNonEmpty(a: string, b: string)
    ensures |Overlap(a, b)| > 0 <==> SharesLongWord(a, b)
  {
    var wordsA, wordsB := Split(a, ' '), Split(b, ' ');
    var o := Overlap(a, b);
    if |o| > 0 {
      assert o[0] in wordsA && o[0] in wordsB && |o[0]| > 3;
    }
    if SharesLongWord(a, b) {
      var w :| w in wordsA && w in wordsB && |w| > 3;
      var k :| 0 <= k < |wordsA| && wordsA[k] == w;
      assert w in o;
    }
  }

  /** `fuzzyMatch`: equal, either contains the other, or a shared word longer than 3 characters. */
  function FuzzyMatch(dbTeam: string, fbrefTeam: string): (m: bool)
    ensures var a, b := NormalizeTeamName(dbTeam), NormalizeTeamName(fbrefTeam);
      m <==> a == b || Contains(a, b) || Contains(b, a) || SharesLongWord(a, b)
  {
    var a := NormalizeTeamName(dbTeam);
    var b := NormalizeTeamName(fbrefTeam);
    OverlapNonEmpty(a, b);
    if a == b then true
    else if Contains(a, b) || Contains(b, a) then true
    else |Overlap(a, b)| > 0
  }

  lemma FuzzyMatchReflexive(name: string)
    ensures FuzzyMatch(name, name)
  {
  }

  lemma FuzzyMatchSymmetric(x: string, y: string)
    ensures FuzzyMatch(x, y) == FuzzyMatch(y, x)
  {
    var a, b := NormalizeTeamName(x), NormalizeTeamName(y);
    assert SharesLongWord(a, b) == SharesLongWord(b, a);
  }

  /** A name that normalises to nothing matches every name. */
  lemma EmptyNameMatchesAll(x: string, y: string)
    requires NormalizeTeamName(x) == ""
    ensures FuzzyMatch(x, y) && FuzzyMatch(y, x)
  {
    assert Contains(NormalizeTeamName(y), "");
  }

  // ---------------------------------------------------------------------------
  // Pairing rows with a stored match

  /** `teamStats.find(t => fuzzyMatch(name, t.team))`: the first row whose team matches. */
  function FindTeam(teams: seq<TeamXg>, name: string): (r: Option<TeamXg>)
    ensures r.Some? ==> r.value in teams && FuzzyMatch(name, r.value.team)
    ensures r.None? ==> forall t :: t in teams ==> !FuzzyMatch(name, t.team)
    ensures forall k ::
      (0 <= k < |teams| && FuzzyMatch(name, teams[k].team)
       && forall i :: 0 <= i < k ==> !FuzzyMatch(name, teams[i].team)) ==> r == Some(teams[k])
  {
    var r := Find(teams, (t: TeamXg) => FuzzyMatch(name, t.team));
    forall k | 0 <= k < |teams| && FuzzyMatch(name, teams[k].team)
      && (forall i :: 0 <= i < k ==> !FuzzyMatch(name, teams[i].team))
      ensures r == Some(teams[k])
    {
      FindFirst(teams, (t: TeamXg) => FuzzyMatch(name, t.team), k);
    }
    r
  }

  /**
   * The two rates computed for a match: from the matched rows, or 1.35 and 1.2
   * for a side without one. When neither side matches, the handler skips the
   * match and writes nothing, so the pair (1.35, 1.2) is never stored.
   */
  function MatchLambdas(homeStats: Option<TeamXg>, awayStats: Option<TeamXg>): (rates: (real, real))
    ensures homeStats.None? ==> rates.0 == 1.35
    ensures awayStats.None? ==> rates.1 == 1.2
    ensures homeStats.Some? ==> rates.0 == ComputeLambda(homeStats.value.xgFor, homeStats.value.xgAgainst, homeStats.value.gamesPlayed, true)
    ensures awayStats.Some? ==> rates.1 == ComputeLambda(awayStats.value.xgFor, awayStats.value.xgAgainst, awayStats.value.gamesPlayed, false)
  {
    (if homeStats.Some? then ComputeLambda(homeStats.value.xgFor, homeStats.value.xgAgainst, homeStats.value.gamesPlayed, true) else 1.35,
     if awayStats.Some? then ComputeLambda(awayStats.value.xgFor, awayStats.value.xgAgainst, awayStats.value.gamesPlayed, false) else 1.2)
  }
}
