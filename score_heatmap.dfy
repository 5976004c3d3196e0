/**
 * The score heatmap: a 6 × 6 grid of scorelines 0..5 read from the Monte
 * Carlo `scoreDist` map, and the relative colour tier of each cell.
 */
module ScoreHeatmap {
  import opened Options
  import opened MonteCarlo

  /** `scoreDist` as `Object.entries` gives it: scoreline keys with their percentages. */
  type Dist = seq<(string, real)>

  /** `scoreDist[key]`: the value stored under `key`, if any. */
  function Get(dist: Dist, key: string): (v: Option<real>)
    ensures v.Some? ==> (key, v.value) in dist
    ensures v.None? ==> forall e :: e in dist ==> e.0 != key
  {
    if dist == [] then None
    else if dist[0].0 == key then Some(dist[0].1)
    else Get(dist[1..], key)
  }

  /** `scoreDist[key] || 0`: a missing key, or a stored 0, reads as 0. */
  function Prob(dist: Dist, key: string): (p: real)
    ensures Get(dist, key).None? ==> p == 0.0
    ensures Get(dist, key).Some? ==> p == Get(dist, key).value
  {
    match Get(dist, key)
    case None => 0.0
    case Some(v) => v
  }

  /** One cell of the grid: its key, probability and scoreline. */
  datatype Cell = Cell(key: string, prob: real, home: nat, away: nat)

  /** Goals 0..5 on each side. */
  const Size: nat := 6

  /** The grid the component draws: row h, column a holds scoreline h-a. */
  predicate IsGrid(dist: Dist, rows: seq<seq<Cell>>)
  {
    && |rows| == Size
    && forall h :: 0 <= h < Size ==>
      && |rows[h]| == Size
      && forall a :: 0 <= a < Size ==>
        rows[h][a] == Cell(ScoreKey(h, a), Prob(dist, ScoreKey(h, a)), h, a)
  }

  /** The two nested `for` loops that push each row's cells into `cols` and each row into `rows`. */
  method BuildGrid(dist: Dist) returns (rows: seq<seq<Cell>>)
    ensures IsGrid(dist, rows)
  {
    rows := [];
    var h := 0;
    while h <= 5
      invariant 0 <= h <= Size && |rows| == h
      invariant forall i :: 0 <= i < h ==>
        && |rows[i]| == Size
        && forall a :: 0 <= a < Size ==> rows[i][a] == Cell(ScoreKey(i, a), Prob(dist, ScoreKey(i, a)), i, a)
    {
      var cols: seq<Cell> := [];
      var a := 0;
      while a <= 5
        invariant 0 <= a <= Size && |cols| == a
        invariant forall j :: 0 <= j < a ==> cols[j] == Cell(ScoreKey(h, j), Prob(dist, ScoreKey(h, j)), h, j)
      {
        var key := ScoreKey(h, a);
        var prob := Prob(dist, key);
        cols := cols + [Cell(key, prob, h, a)];
        a := a + 1;
      }
      rows := rows + [cols];
      h := h + 1;
    }
  }

  /** Scorelines with more than five goals on a side are in no cell, whatever their share. */
  lemma HighScoresHidden(dist: Dist, rows: seq<seq<Cell>>, h: nat, a: nat)
    requires IsGrid(dist, rows)
    requires h > 5 || a > 5
    ensures forall i, j :: 0 <= i < Size && 0 <= j < Size ==> rows[i][j].key != ScoreKey(h, a)
  {
    forall i, j | 0 <= i < Size && 0 <= j < Size
      ensures rows[i][j].key != ScoreKey(h, a)
    {
      if rows[i][j].key == ScoreKey(h, a) {
        ScoreKeyInjective(i, j, h, a);
      }
    }
  }

  /** `Math.max(...Object.values(scoreDist))`: the largest value (the map is never empty here). */
  function MaxValue(dist: Dist): (m: real)
    requires |dist| > 0
    ensures forall e :: e in dist ==> e.1 <= m
    ensures exists e :: e in dist && e.1 == m
  {
    if |dist| == 1 then dist[0].1
    else
      var rest := MaxValue(dist[1..]);
      if dist[0].1 >= rest then dist[0].1 else rest
  }

  /** Every positive cell is at most the maximum, so the maximum is positive when `getColor` runs. */
  lemma CellBelowMax(dist: Dist, key: string)
    requires Prob(dist, key) > 0.0
    ensures |dist| > 0 && 0.0 < Prob(dist, key) <= MaxValue(dist)
  {
  }

  /** The four colour tiers of `getColor`, strongest first. */
  datatype Shade = Strong | Medium | Light | Faint

  function ShadeLevel(s: Shade): nat
  {
    match s
    case Faint => 0
    case Light => 1
    case Medium => 2
    case Strong => 3
  }

  /** `getColor`: the tier of prob / maxProb, with strict thresholds 0.8, 0.5 and 0.3. */
  function GetColor(prob: real, maxProb: real): (s: Shade)
    requires maxProb > 0.0
    ensures s == Strong <==> prob / maxProb > 0.8
    ensures s == Medium <==> 0.5 < prob / maxProb <= 0.8
    ensures s == Light <==> 0.3 < prob / maxProb <= 0.5
    ensures s == Faint <==> prob / maxProb <= 0.3
  {
    var intensity := prob / maxProb;
    if intensity > 0.8 then Strong
    else if intensity > 0.5 then Medium
    else if intensity > 0.3 then Light
    else Faint
  }

  /** The most likely scoreline gets the strongest tier. */
  lemma MaxGetsStrong(maxProb: real)
    requires maxProb > 0.0
    ensures GetColor(maxProb, maxProb) == Strong
  {
  }

  /** A larger probability never gets a weaker tier. */
  lemma GetColorMonotone(p: real, q: real, maxProb: real)
    requires maxProb > 0.0 && p <= q
    ensures ShadeLevel(GetColor(p, maxProb)) <= ShadeLevel(GetColor(q, maxProb))
  {
    assert p / maxProb <= q / maxProb by {
      assert q / maxProb - p / maxProb == (q - p) / maxProb;
    }
  }

  /** What a cell shows: "–" on a plain background, or its percentage in a colour tier. */
  datatype View = Dash | Shaded(prob: real, shade: Shade)

  /** `cell.prob > 0 ? getColor(cell.prob) … : "–"`. */
  function CellView(dist: Dist, c: Cell): (v: View)
    requires c.prob == Prob(dist, c.key)
    ensures v == Dash <==> c.prob <= 0.0
    ensures v.Shaded? ==> v.prob == c.prob && |dist| > 0 && v.shade == GetColor(c.prob, MaxValue(dist))
  {
    if c.prob > 0.0 then
      CellBelowMax(dist, c.key);
      Shaded(c.prob, GetColor(c.prob, MaxValue(dist)))
    else Dash
  }

  /** A scoreline absent from the map is drawn as a dash. */
  lemma MissingIsDash(dist: Dist, rows: seq<seq<Cell>>, h: nat, a: nat)
    requires IsGrid(dist, rows) && h < Size && a < Size
    requires forall e :: e in dist ==> e.0 != ScoreKey(h, a)
    ensures CellView(dist, rows[h][a]) == Dash
  {
  }

  /** The cell of the most likely scoreline, when it is on the grid, is drawn in the strongest tier. */
  lemma TopCellStrong(dist: Dist, rows: seq<seq<Cell>>, h: nat, a: nat)
    requires IsGrid(dist, rows) && h < Size && a < Size
    requires |dist| > 0 && MaxValue(dist) > 0.0 && Prob(dist, ScoreKey(h, a)) == MaxValue(dist)
    ensures CellView(dist, rows[h][a]) == Shaded(MaxValue(dist), Strong)
  {
    MaxGetsStrong(MaxValue(dist));
  }
}
