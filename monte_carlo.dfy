/**
 * The Monte Carlo match simulator: Knuth's multiplicative Poisson sampler and
 * the run that draws `numSims` scorelines and aggregates them into outcome
 * percentages, goal averages, two 8-bucket goal histograms, a scoreline
 * frequency table and its 15 most frequent scorelines.
 *
 * `Math.random` is not modelled: the uniforms a run consumes are the sequence
 * `u`, read from position 0 on, one per call.
 */
module MonteCarlo {
  import opened Options
  import opened Js
  import opened Poisson
  import opened StableSort

  // ---------------------------------------------------------------------------
  // Sampling

  /** The product of the `n` uniforms that start at position `pos`. */
  function Product(u: seq<real>, pos: nat, n: nat): real
    requires pos + n <= |u|
  {
    if n == 0 then 1.0 else Product(u, pos, n - 1) * u[pos + n - 1]
  }

  /**
   * The least number of draws c ≥ n, starting at `pos`, whose product is at
   * most `limit`; None when the stream runs out first.
   */
  function CrossingFrom(u: seq<real>, pos: nat, limit: real, n: nat): (c: Option<nat>)
    decreases |u| - pos - n
    ensures c.Some? ==> n <= c.value && pos + c.value <= |u|
  {
    if pos + n > |u| then None
    else if Product(u, pos, n) <= limit then Some(n)
    else CrossingFrom(u, pos, limit, n + 1)
  }

  /** `CrossingFrom` finds the first count of draws from n on whose product reaches the limit. */
  lemma {:induction false} CrossingFromFirst(u: seq<real>, pos: nat, limit: real, n: nat)
    decreases |u| - pos - n
    ensures var c := CrossingFrom(u, pos, limit, n);
      c.Some? ==>
        && Product(u, pos, c.value) <= limit
        && forall m :: n <= m < c.value ==> Product(u, pos, m) > limit
    ensures var c := CrossingFrom(u, pos, limit, n);
      c.None? ==> forall m :: n <= m && pos + m <= |u| ==> Product(u, pos, m) > limit
  {
    if pos + n <= |u| && Product(u, pos, n) > limit {
      CrossingFromFirst(u, pos, limit, n + 1);
    }
  }

  /** The number of draws the sampler makes from `pos`: the first n ≥ 1 with product ≤ limit. */
  function Crossing(u: seq<real>, pos: nat, limit: real): (c: Option<nat>)
    ensures c.Some? ==> c.value >= 1 && pos + c.value <= |u|
  {
    CrossingFrom(u, pos, limit, 1)
  }

  /**
   * The draws counted by `Crossing` are exactly up to the first point where the
   * running product is at most the limit; None only when no prefix of the
   * stream gets there.
   */
  lemma CrossingFirst(u: seq<real>, pos: nat, limit: real)
    ensures var c := Crossing(u, pos, limit);
      c.Some? ==>
        && Product(u, pos, c.value) <= limit
        && forall m :: 1 <= m < c.value ==> Product(u, pos, m) > limit
    ensures Crossing(u, pos, limit).None? ==>
      forall m :: 1 <= m && pos + m <= |u| ==> Product(u, pos, m) > limit
  {
    CrossingFromFirst(u, pos, limit, 1);
  }

  /**
   * `poissonRandom`: multiplies uniforms into p until p ≤ e^(−λ) (a do-while,
   * so at least one draw) and returns the number of draws minus one. `next` is
   * the position of the first unused uniform.
   */
  method PoissonRandom(rate: Rate, u: seq<real>, pos: nat) returns (goals: nat, next: nat)
    requires Crossing(u, pos, rate.expNeg).Some?
    ensures goals + 1 == Crossing(u, pos, rate.expNeg).value
    ensures next == pos + goals + 1
  {
    var limit := rate.expNeg;
    var k := 0;
    var p := 1.0;
    k := k + 1;
    p := p * u[pos];
    while p > limit
      invariant 1 <= k && pos + k <= |u|
      invariant p == Product(u, pos, k)
      invariant CrossingFrom(u, pos, limit, k) == Crossing(u, pos, limit)
      decreases |u| - pos - k
    {
      k := k + 1;
      p := p * u[pos + k - 1];
    }
    goals, next := k - 1, pos + k;
  }

  /** The goals one simulated match produced. */
  datatype Sample = Sample(homeGoals: nat, awayGoals: nat)

  /**
   * `n` simulated matches read from `pos`: home goals, then away goals, match
   * after match. Also gives the position after the last draw; None when the
   * stream runs out.
   */
  function Simulate(home: Rate, away: Rate, u: seq<real>, pos: nat, n: nat)
    : (r: Option<(seq<Sample>, nat)>)
    decreases n
    ensures r.Some? ==> |r.value.0| == n
  {
    if n == 0 then Some(([], pos))
    else
      match Crossing(u, pos, home.expNeg)
      case None => None
      case Some(ch) =>
        match Crossing(u, pos + ch, away.expNeg)
        case None => None
        case Some(ca) =>
          match Simulate(home, away, u, pos + ch + ca, n - 1)
          case None => None
          case Some(rest) => Some(([Sample(ch - 1, ca - 1)] + rest.0, rest.1))
  }

  /** One step of `Simulate`: the first match's two draws, then the remaining matches. */
  lemma SimulateUnfold(home: Rate, away: Rate, u: seq<real>, pos: nat, n: nat)
    requires n > 0 && Simulate(home, away, u, pos, n).Some?
    ensures Crossing(u, pos, home.expNeg).Some?
    ensures var ch := Crossing(u, pos, home.expNeg).value;
      Crossing(u, pos + ch, away.expNeg).Some?
    ensures var ch := Crossing(u, pos, home.expNeg).value;
      var ca := Crossing(u, pos + ch, away.expNeg).value;
      && Simulate(home, away, u, pos + ch + ca, n - 1).Some?
      && Simulate(home, away, u, pos, n).value.0
         == [Sample(ch - 1, ca - 1)] + Simulate(home, away, u, pos + ch + ca, n - 1).value.0
  {
  }

  // ---------------------------------------------------------------------------
  // Counting

  /** The per-sample conditions the run counts. `home` picks the side of a goal bucket. */
  datatype Event =
    | HomeWin | Draw | AwayWin | Over25 | Btts
    | Goals(home: bool, k: nat) | AtLeast(home: bool, k: nat)
    | Score(h: nat, a: nat)

  function GoalsOf(x: Sample, home: bool): nat
  {
    if home then x.homeGoals else x.awayGoals
  }

  predicate Holds(e: Event, x: Sample)
  {
    match e
    case HomeWin => x.homeGoals > x.awayGoals
    case Draw => x.homeGoals == x.awayGoals
    case AwayWin => x.homeGoals < x.awayGoals
    case Over25 => x.homeGoals + x.awayGoals > 2
    case Btts => x.homeGoals > 0 && x.awayGoals > 0
    case Goals(home, k) => GoalsOf(x, home) == k
    case AtLeast(home, k) => GoalsOf(x, home) >= k
    case Score(h, a) => x.homeGoals == h && x.awayGoals == a
  }

  /** The number of samples satisfying `e`. */
  function Count(s: seq<Sample>, e: Event): (c: nat)
    ensures c <= |s|
  {
    if s == [] then 0
    else Count(s[..|s| - 1], e) + (if Holds(e, s[|s| - 1]) then 1 else 0)
  }

  lemma CountSnoc(s: seq<Sample>, x: Sample, e: Event)
    ensures Count(s + [x], e) == Count(s, e) + (if Holds(e, x) then 1 else 0)
  {
    assert (s + [x])[..|s|] == s;
  }

  /** Counting an event that holds for exactly the samples of e1 or of e2, which never overlap. */
  lemma {:induction false} CountSplit(s: seq<Sample>, e: Event, e1: Event, e2: Event)
    requires forall x :: Holds(e, x) <==> (Holds(e1, x) || Holds(e2, x))
    requires forall x :: !(Holds(e1, x) && Holds(e2, x))
    ensures Count(s, e) == Count(s, e1) + Count(s, e2)
  {
    if s != [] {
      CountSplit(s[..|s| - 1], e, e1, e2);
    }
  }

  /** An event every sample satisfies counts every sample. */
  lemma {:induction false} CountAll(s: seq<Sample>, e: Event)
    requires forall x :: Holds(e, x)
    ensures Count(s, e) == |s|
  {
    if s != [] {
      CountAll(s[..|s| - 1], e);
    }
  }

  /** Every sample is exactly one of a home win, a draw or an away win. */
  lemma {:induction false} OutcomesPartition(s: seq<Sample>)
    ensures Count(s, HomeWin) + Count(s, Draw) + Count(s, AwayWin) == |s|
  {
    if s != [] {
      OutcomesPartition(s[..|s| - 1]);
    }
  }

  /** The histogram total over buckets 0..m−1 of one side. */
  function Buckets(s: seq<Sample>, home: bool, m: nat): nat
  {
    if m == 0 then 0 else Buckets(s, home, m - 1) + Count(s, Goals(home, m - 1))
  }

  /** The buckets below m and the samples with m or more goals account for every sample. */
  lemma {:induction false} BucketsCover(s: seq<Sample>, home: bool, m: nat)
    ensures Buckets(s, home, m) + Count(s, AtLeast(home, m)) == |s|
  {
    if m == 0 {
      CountAll(s, AtLeast(home, 0));
    } else {
      BucketsCover(s, home, m - 1);
      CountSplit(s, AtLeast(home, m - 1), Goals(home, m - 1), AtLeast(home, m));
    }
  }

  /** The total goals of one side over the samples. */
  function TotalGoals(s: seq<Sample>, home: bool): nat
  {
    if s == [] then 0 else TotalGoals(s[..|s| - 1], home) + GoalsOf(s[|s| - 1], home)
  }

  lemma TotalSnoc(s: seq<Sample>, x: Sample, home: bool)
    ensures TotalGoals(s + [x], home) == TotalGoals(s, home) + GoalsOf(x, home)
  {
    assert (s + [x])[..|s|] == s;
  }

  /** Every "over 2.5" sample holds at least 3 goals, so 3 · over25 ≤ total goals. */
  lemma {:induction false} Over25Goals(s: seq<Sample>)
    ensures 3 * Count(s, Over25) <= TotalGoals(s, true) + TotalGoals(s, false)
  {
    if s != [] {
      Over25Goals(s[..|s| - 1]);
    }
  }

  /** Every "both score" sample holds a goal on each side. */
  lemma {:induction false} BttsGoals(s: seq<Sample>)
    ensures Count(s, Btts) <= TotalGoals(s, true) && Count(s, Btts) <= TotalGoals(s, false)
  {
    if s != [] {
      BttsGoals(s[..|s| - 1]);
    }
  }

  // ---------------------------------------------------------------------------
  // Scoreline table

  /** The key of a scoreline, `${hg}-${ag}`. */
  function ScoreKey(h: nat, a: nat): string
  {
    NatToDecimal(h) + "-" + NatToDecimal(a)
  }

  /** Different scorelines get different keys. */
  lemma ScoreKeyInjective(h1: nat, a1: nat, h2: nat, a2: nat)
    requires ScoreKey(h1, a1) == ScoreKey(h2, a2)
    ensures h1 == h2 && a1 == a2
  {
    var key := ScoreKey(h1, a1);
    var d1, d2 := NatToDecimal(h1), NatToDecimal(h2);
    assert key[|d1|] == '-' && key[|d2|] == '-';
    assert d1 == key[..|d1|] == d2;
    DecimalInjective(h1, h2);
    assert NatToDecimal(a1) == key[|d1| + 1..] == NatToDecimal(a2);
    DecimalInjective(a1, a2);
  }

  /** `scoreMap[key] || 0`: the stored count, or 0 for a key not yet seen. */
  function Lookup(m: seq<(string, nat)>, key: string): nat
  {
    if m == [] then 0 else if m[0].0 == key then m[0].1 else Lookup(m[1..], key)
  }

  /** `scoreMap[key] = (scoreMap[key] || 0) + 1`: a seen key counts up in place, a new one is appended. */
  function Bump(m: seq<(string, nat)>, key: string): (r: seq<(string, nat)>)
    ensures |r| == |m| || |r| == |m| + 1
  {
    if m == [] then [(key, 1)]
    else if m[0].0 == key then [(key, m[0].1 + 1)] + m[1..]
    else [m[0]] + Bump(m[1..], key)
  }

  /** Bumping a key adds one to its count and leaves every other key's count alone. */
  lemma {:induction false} LookupBump(m: seq<(string, nat)>, key: string, other: string)
    ensures Lookup(Bump(m, key), other) == Lookup(m, other) + (if other == key then 1 else 0)
  {
    if m != [] && m[0].0 != key {
      LookupBump(m[1..], key, other);
    }
  }

  /** The sum of the stored counts. */
  function ValueSum(m: seq<(string, nat)>): nat
  {
    if m == [] then 0 else m[0].1 + ValueSum(m[1..])
  }

  lemma {:induction false} ValueSumBump(m: seq<(string, nat)>, key: string)
    ensures ValueSum(Bump(m, key)) == ValueSum(m) + 1
  {
    if m != [] && m[0].0 != key {
      ValueSumBump(m[1..], key);
    }
  }

  predicate UniqueKeys(m: seq<(string, nat)>)
  {
    forall i, j :: 0 <= i < j < |m| ==> m[i].0 != m[j].0
  }

  lemma {:induction false} BumpKeys(m: seq<(string, nat)>, key: string)
    ensures forall i :: 0 <= i < |Bump(m, key)| ==> Bump(m, key)[i].0 == key || exists j :: 0 <= j < |m| && m[j].0 == Bump(m, key)[i].0
    ensures UniqueKeys(m) ==> UniqueKeys(Bump(m, key))
  {
    if m != [] && m[0].0 != key {
      BumpKeys(m[1..], key);
      var r := Bump(m, key);
      forall i | 0 <= i < |r|
        ensures r[i].0 == key || exists j :: 0 <= j < |m| && m[j].0 == r[i].0
      {
        if i > 0 {
          var t := Bump(m[1..], key);
          assert r[i] == t[i - 1];
          if t[i - 1].0 != key {
            var j :| 0 <= j < |m[1..]| && m[1..][j].0 == t[i - 1].0;
            assert m[j + 1].0 == r[i].0;
          }
        }
      }
    } else if m != [] {
      var r := Bump(m, key);
      forall i | 0 <= i < |r|
        ensures r[i].0 == key || exists j :: 0 <= j < |m| && m[j].0 == r[i].0
      {
        if i > 0 {
          assert r[i] == m[i];
        }
      }
    }
    if UniqueKeys(m) && m != [] && m[0].0 != key {
      var r, t := Bump(m, key), Bump(m[1..], key);
      forall i, j | 0 <= i < j < |r|
        ensures r[i].0 != r[j].0
      {
        if i == 0 {
          assert r[j] == t[j - 1];
          if t[j - 1].0 != key {
            var l :| 0 <= l < |m[1..]| && m[1..][l].0 == t[j - 1].0;
            assert m[l + 1].0 == r[j].0;
          }
        }
      }
    }
  }

  /** The score map after the samples `s`, in first-seen key order. */
  function ScoreTable(s: seq<Sample>): seq<(string, nat)>
  {
    if s == [] then []
    else
      var x := s[|s| - 1];
      Bump(ScoreTable(s[..|s| - 1]), ScoreKey(x.homeGoals, x.awayGoals))
  }

  lemma ScoreTableSnoc(s: seq<Sample>, x: Sample)
    ensures ScoreTable(s + [x]) == Bump(ScoreTable(s), ScoreKey(x.homeGoals, x.awayGoals))
  {
    assert (s + [x])[..|s|] == s;
  }

  /** The entry of "h-a" counts the samples equal to (h, a); an unseen scoreline reads 0. */
  lemma {:induction false} ScoreTableCounts(s: seq<Sample>, h: nat, a: nat)
    ensures Lookup(ScoreTable(s), ScoreKey(h, a)) == Count(s, Score(h, a))
  {
    if s != [] {
      var x := s[|s| - 1];
      ScoreTableCounts(s[..|s| - 1], h, a);
      LookupBump(ScoreTable(s[..|s| - 1]), ScoreKey(x.homeGoals, x.awayGoals), ScoreKey(h, a));
      if ScoreKey(x.homeGoals, x.awayGoals) == ScoreKey(h, a) {
        ScoreKeyInjective(x.homeGoals, x.awayGoals, h, a);
      }
    }
  }

  /** The counts of the score map add up to the number of samples. */
  lemma {:induction false} ScoreTableTotal(s: seq<Sample>)
    ensures ValueSum(ScoreTable(s)) == |s|
  {
    if s != [] {
      var x := s[|s| - 1];
      ScoreTableTotal(s[..|s| - 1]);
      ValueSumBump(ScoreTable(s[..|s| - 1]), ScoreKey(x.homeGoals, x.awayGoals));
    }
  }

  /** Each key appears once in the score map. */
  lemma {:induction false} ScoreTableUnique(s: seq<Sample>)
    ensures UniqueKeys(ScoreTable(s))
  {
    if s != [] {
      var x := s[|s| - 1];
      ScoreTableUnique(s[..|s| - 1]);
      BumpKeys(ScoreTable(s[..|s| - 1]), ScoreKey(x.homeGoals, x.awayGoals));
    }
  }

  // ---------------------------------------------------------------------------
  // Most frequent scorelines

  /** The comparator `(a, b) => b − a` on counts, as an ascending rank. */
  function ByCount(e: (string, nat)): int
  {
    -(e.1 as int)
  }

  /** `Object.entries(scoreMap).sort(…).slice(0, 15)`. */
  function TopScores(table: seq<(string, nat)>): (top: seq<(string, nat)>)
    ensures |top| == Min(15, |table|)
    ensures top == SortBy(table, ByCount)[..|top|]
  {
    SortBy(table, ByCount)[..Min(15, |table|)]
  }

  /** The kept scorelines come in non-increasing count order. */
  lemma TopScoresOrdered(table: seq<(string, nat)>)
    ensures var top := TopScores(table);
      forall i, j :: 0 <= i < j < |top| ==> top[i].1 >= top[j].1
  {
    var sorted := SortBy(table, ByCount);
    var top := TopScores(table);
    forall i, j | 0 <= i < j < |top|
      ensures top[i].1 >= top[j].1
    {
      assert top[i] == sorted[i] && top[j] == sorted[j];
      assert ByCount(sorted[i]) <= ByCount(sorted[j]);
    }
  }

  /** No scoreline left out has a larger count than a kept one. */
  lemma TopScoresKeepLargest(table: seq<(string, nat)>, e: (string, nat))
    requires e in table && e !in TopScores(table)
    ensures forall t :: t in TopScores(table) ==> t.1 >= e.1
  {
    var sorted := SortBy(table, ByCount);
    var top := TopScores(table);
    assert e in multiset(sorted);
    var j :| 0 <= j < |sorted| && sorted[j] == e;
    assert j >= |top|;
    forall t | t in top
      ensures t.1 >= e.1
    {
      var i :| 0 <= i < |top| && top[i] == t;
      assert sorted[i] == t;
      assert ByCount(sorted[i]) <= ByCount(sorted[j]);
    }
  }

  /**
   * Among kept scorelines of equal count the order is the score map's
   * first-seen order: for each count, the kept ones are the first ones of
   * that count in the map, in map order.
   */
  lemma TopScoresStable(table: seq<(string, nat)>, c: int)
    ensures OfRank(TopScores(table), ByCount, c) <= OfRank(table, ByCount, c)
  {
    var sorted := SortBy(table, ByCount);
    OfRankPrefix(sorted, ByCount, c, Min(15, |table|));
  }

  // ---------------------------------------------------------------------------
  // The run

  /** `toPct(n) = (n / numSims) * 100`. */
  function Pct(n: nat, numSims: nat): real
    requires numSims > 0
  {
    (n as real / numSims as real) * 100.0
  }

  /** Counts that add up to numSims give percentages that add up to 100. */
  lemma PctPartition(a: nat, b: nat, c: nat, numSims: nat)
    requires numSims > 0 && a + b + c == numSims
    ensures Pct(a, numSims) + Pct(b, numSims) + Pct(c, numSims) == 100.0
  {
    var n := numSims as real;
    assert a as real / n + b as real / n + c as real / n == (a + b + c) as real / n;
  }

  /** A count of at most numSims gives a percentage in [0, 100]. */
  lemma PctBounds(c: nat, numSims: nat)
    requires numSims > 0 && c <= numSims
    ensures 0.0 <= Pct(c, numSims) <= 100.0
  {
    var n := numSims as real;
    assert c as real / n <= 1.0 by {
      assert c as real <= n;
    }
  }

  /** `scoreDist`: each kept key with its percentage, in the sorted order. */
  function ScoreDist(top: seq<(string, nat)>, numSims: nat): (d: seq<(string, real)>)
    requires numSims > 0
    ensures |d| == |top|
    ensures forall i :: 0 <= i < |d| ==> d[i] == (top[i].0, Pct(top[i].1, numSims))
  {
    seq(|top|, i requires 0 <= i < |top| => (top[i].0, Pct(top[i].1, numSims)))
  }

  datatype Output = Output(
    simulations: seq<Sample>,
    homeWinPct: real, drawPct: real, awayWinPct: real, over25Pct: real, bttsPct: real,
    avgHomeGoals: real, avgAwayGoals: real,
    homeGoalDist: seq<real>, awayGoalDist: seq<real>,
    scoreDist: seq<(string, real)>)

  /** One side's goal histogram: bucket k counts the samples with exactly k goals, k = 0..7. */
  function Histogram(s: seq<Sample>, home: bool): (h: seq<nat>)
    ensures |h| == 8
    ensures forall k :: 0 <= k < 8 ==> h[k] == Count(s, Goals(home, k))
  {
    seq(8, k requires 0 <= k < 8 => Count(s, Goals(home, k)))
  }

  /** `counts[g]++` for the new sample's goals g when g < 8; nothing for 8 or more. */
  lemma HistogramSnoc(s: seq<Sample>, x: Sample, home: bool)
    ensures var h, g := Histogram(s, home), GoalsOf(x, home);
      Histogram(s + [x], home) == if g < 8 then h[g := h[g] + 1] else h
  {
    forall k | 0 <= k < 8
      ensures Count(s + [x], Goals(home, k)) == Count(s, Goals(home, k)) + (if GoalsOf(x, home) == k then 1 else 0)
    {
      CountSnoc(s, x, Goals(home, k));
    }
  }

  /** `counts.map(c => toPct(c))`. */
  function PctAll(counts: seq<nat>, numSims: nat): (d: seq<real>)
    requires numSims > 0
    ensures |d| == |counts|
    ensures forall k :: 0 <= k < |d| ==> d[k] == Pct(counts[k], numSims)
  {
    seq(|counts|, k requires 0 <= k < |counts| => Pct(counts[k], numSims))
  }

  /**
   * The `Object.entries(scoreMap)` chain: sorted by descending count, cut to
   * 15, and each written into `scoreDist` with its percentage.
   */
  method BuildScoreDist(scoreMap: seq<(string, nat)>, numSims: nat) returns (scoreDist: seq<(string, real)>)
    requires numSims > 0
    ensures scoreDist == ScoreDist(TopScores(scoreMap), numSims)
  {
    var top := TopScores(scoreMap);
    scoreDist := [];
    var t := 0;
    while t < |top|
      invariant 0 <= t <= |top|
      invariant scoreDist == ScoreDist(top[..t], numSims)
    {
      scoreDist := scoreDist + [(top[t].0, Pct(top[t].1, numSims))];
      t := t + 1;
    }
    assert top[..t] == top;
  }

  /**
   * The accumulators of `runMonteCarlo`: the outcome, over 2.5 and both-score
   * counters, the goal totals, the two 8-bucket histograms and the score map.
   * `samples` (ghost) is what has been recorded so far; `Valid` ties every
   * accumulator to it.
   */
  class Tally {
    var homeWins: nat
    var draws: nat
    var awayWins: nat
    var over25: nat
    var btts: nat
    var totalHome: nat
    var totalAway: nat
    const homeGoalCounts: array<nat>
    const awayGoalCounts: array<nat>
    var scoreMap: seq<(string, nat)>
    ghost var samples: seq<Sample>

    /** The five counters count the recorded samples. */
    ghost predicate CountersValid()
      reads this
    {
      && homeWins == Count(samples, HomeWin) && draws == Count(samples, Draw)
      && awayWins == Count(samples, AwayWin)
      && over25 == Count(samples, Over25) && btts == Count(samples, Btts)
    }

    /** The goal totals sum the recorded samples' goals. */
    ghost predicate TotalsValid()
      reads this
    {
      totalHome == TotalGoals(samples, true) && totalAway == TotalGoals(samples, false)
    }

    /** The two arrays are the recorded samples' histograms. */
    ghost predicate HistogramsValid()
      reads this, homeGoalCounts, awayGoalCounts
    {
      && homeGoalCounts != awayGoalCounts
      && homeGoalCounts[..] == Histogram(samples, true)
      && awayGoalCounts[..] == Histogram(samples, false)
    }

    ghost predicate Valid()
      reads this, homeGoalCounts, awayGoalCounts
    {
      CountersValid() && TotalsValid() && HistogramsValid() && scoreMap == ScoreTable(samples)
    }

    /** All counters 0, `new Array(8).fill(0)` twice, an empty score map. */
    constructor ()
      ensures Valid() && samples == []
      ensures fresh(homeGoalCounts) && fresh(awayGoalCounts)
    {
      homeWins, draws, awayWins, over25, btts := 0, 0, 0, 0, 0;
      totalHome, totalAway := 0, 0;
      homeGoalCounts := new nat[8](_ => 0);
      awayGoalCounts := new nat[8](_ => 0);
      scoreMap := [];
      samples := [];
      new;
      assert homeGoalCounts[..] == Histogram([], true);
      assert awayGoalCounts[..] == Histogram([], false);
    }

    /** The loop body of `runMonteCarlo` after the two draws: every accumulator takes in (hg, ag). */
    method Add(hg: nat, ag: nat)
      requires Valid()
      modifies this, homeGoalCounts, awayGoalCounts
      ensures Valid() && samples == old(samples) + [Sample(hg, ag)]
    {
      var x := Sample(hg, ag);
      CountResult(samples, x);
      AddGoals(samples, x);
      Bucket(homeGoalCounts, samples, true, x);
      Bucket(awayGoalCounts, samples, false, x);
      AddScore(samples, x);
      samples := samples + [x];
    }

    /** The three outcome counters, over 2.5 and both-score take in the sample `x`. */
    method CountResult(ghost s: seq<Sample>, x: Sample)
      requires homeWins == Count(s, HomeWin) && draws == Count(s, Draw) && awayWins == Count(s, AwayWin)
      requires over25 == Count(s, Over25) && btts == Count(s, Btts)
      modifies this`homeWins, this`draws, this`awayWins, this`over25, this`btts
      ensures homeWins == Count(s + [x], HomeWin) && draws == Count(s + [x], Draw)
      ensures awayWins == Count(s + [x], AwayWin)
      ensures over25 == Count(s + [x], Over25) && btts == Count(s + [x], Btts)
    {
      CountSnoc(s, x, HomeWin);
      CountSnoc(s, x, Draw);
      CountSnoc(s, x, AwayWin);
      CountSnoc(s, x, Over25);
      CountSnoc(s, x, Btts);
      var hg, ag := x.homeGoals, x.awayGoals;
      if hg > ag {
        homeWins := homeWins + 1;
      } else if hg == ag {
        draws := draws + 1;
      } else {
        awayWins := awayWins + 1;
      }
      if hg + ag > 2 { over25 := over25 + 1; }
      if hg > 0 && ag > 0 { btts := btts + 1; }
    }

    /** `totalHome += hg; totalAway += ag`. */
    method AddGoals(ghost s: seq<Sample>, x: Sample)
      requires totalHome == TotalGoals(s, true) && totalAway == TotalGoals(s, false)
      modifies this`totalHome, this`totalAway
      ensures totalHome == TotalGoals(s + [x], true) && totalAway == TotalGoals(s + [x], false)
    {
      TotalSnoc(s, x, true);
      TotalSnoc(s, x, false);
      totalHome := totalHome + x.homeGoals;
      totalAway := totalAway + x.awayGoals;
    }

    /** `scoreMap[key] = (scoreMap[key] || 0) + 1` for the sample's "h-a" key. */
    method AddScore(ghost s: seq<Sample>, x: Sample)
      requires scoreMap == ScoreTable(s)
      modifies this`scoreMap
      ensures scoreMap == ScoreTable(s + [x])
    {
      ScoreTableSnoc(s, x);
      var key := ScoreKey(x.homeGoals, x.awayGoals);
      scoreMap := Bump(scoreMap, key);
    }
  }

  /**
   * `counts[g]++` on one side's histogram array for the sample `x`; a g past
   * its end (8 or more goals) changes nothing.
   */
  method Bucket(counts: array<nat>, ghost s: seq<Sample>, home: bool, x: Sample)
    requires counts[..] == Histogram(s, home)
    modifies counts
    ensures counts[..] == Histogram(s + [x], home)
  {
    HistogramSnoc(s, x, home);
    var g := if home then x.homeGoals else x.awayGoals;
    if g < counts.Length {
      counts[g] := counts[g] + 1;
    }
  }

  /** One simulated match: the home draw, then the away draw from where it stopped. */
  method SimulateMatch(home: Rate, away: Rate, u: seq<real>, pos: nat, n: nat)
    returns (hg: nat, ag: nat, next: nat)
    requires n > 0 && Simulate(home, away, u, pos, n).Some?
    ensures Simulate(home, away, u, next, n - 1).Some?
    ensures Simulate(home, away, u, pos, n).value.0
      == [Sample(hg, ag)] + Simulate(home, away, u, next, n - 1).value.0
  {
    SimulateUnfold(home, away, u, pos, n);
    var afterHome;
    hg, afterHome := PoissonRandom(home, u, pos);
    ag, next := PoissonRandom(away, u, afterHome);
  }

  /**
   * The simulation loop of `runMonteCarlo`: draws numSims (home, away)
   * scorelines, two Poisson draws each, and records every one in `tally`.
   */
  method SimulateAll(home: Rate, away: Rate, u: seq<real>, numSims: nat, tally: Tally) returns (sims: seq<Sample>)
    requires Simulate(home, away, u, 0, numSims).Some?
    requires tally.Valid() && tally.samples == []
    modifies tally, tally.homeGoalCounts, tally.awayGoalCounts
    ensures sims == Simulate(home, away, u, 0, numSims).value.0
    ensures tally.Valid() && tally.samples == sims
  {
    ghost var all := Simulate(home, away, u, 0, numSims).value.0;
    sims := [];
    var pos := 0;
    var i := 0;
    while i < numSims
      invariant 0 <= i <= numSims
      invariant Simulate(home, away, u, pos, numSims - i).Some?
      invariant sims + Simulate(home, away, u, pos, numSims - i).value.0 == all
      invariant tally.Valid() && tally.samples == sims
    {
      ghost var prev, before := sims, Simulate(home, away, u, pos, numSims - i).value.0;
      var hg, ag, next := SimulateMatch(home, away, u, pos, numSims - i);
      ghost var after := Simulate(home, away, u, next, numSims - i - 1).value.0;
      assert before == [Sample(hg, ag)] + after;
      pos := next;
      sims := sims + [Sample(hg, ag)];
      assert sims + after == prev + before;
      tally.Add(hg, ag);
      i := i + 1;
    }
    assert sims == all;
  }

  /**
   * `runMonteCarlo`: simulates numSims matches and aggregates them. Every
   * figure is the corresponding count over the simulated samples.
   */
  method RunMonteCarlo(home: Rate, away: Rate, u: seq<real>, numSims: nat) returns (out: Output)
    requires numSims > 0
    requires Simulate(home, away, u, 0, numSims).Some?
    ensures out.simulations == Simulate(home, away, u, 0, numSims).value.0
    ensures var s := out.simulations;
      && out.homeWinPct == Pct(Count(s, HomeWin), numSims)
      && out.drawPct == Pct(Count(s, Draw), numSims)
      && out.awayWinPct == Pct(Count(s, AwayWin), numSims)
      && out.over25Pct == Pct(Count(s, Over25), numSims)
      && out.bttsPct == Pct(Count(s, Btts), numSims)
      && out.avgHomeGoals == TotalGoals(s, true) as real / numSims as real
      && out.avgAwayGoals == TotalGoals(s, false) as real / numSims as real
      && out.homeGoalDist == PctAll(Histogram(s, true), numSims)
      && out.awayGoalDist == PctAll(Histogram(s, false), numSims)
      && out.scoreDist == ScoreDist(TopScores(ScoreTable(s)), numSims)
  {
    var tally := new Tally();
    var sims := SimulateAll(home, away, u, numSims, tally);
    var scoreDist := BuildScoreDist(tally.scoreMap, numSims);
    out := Output(
      sims,
      Pct(tally.homeWins, numSims), Pct(tally.draws, numSims), Pct(tally.awayWins, numSims),
      Pct(tally.over25, numSims), Pct(tally.btts, numSims),
      tally.totalHome as real / numSims as real, tally.totalAway as real / numSims as real,
      PctAll(tally.homeGoalCounts[..], numSims), PctAll(tally.awayGoalCounts[..], numSims),
      scoreDist);
  }

  // ---------------------------------------------------------------------------
  // What the output promises

  /** The three outcome percentages add up to 100. */
  lemma OutcomePctSum(s: seq<Sample>, numSims: nat)
    requires numSims > 0 && |s| == numSims
    ensures Pct(Count(s, HomeWin), numSims) + Pct(Count(s, Draw), numSims) + Pct(Count(s, AwayWin), numSims) == 100.0
  {
    OutcomesPartition(s);
    PctPartition(Count(s, HomeWin), Count(s, Draw), Count(s, AwayWin), numSims);
  }

  /**
   * The 8 buckets of a histogram hold at most numSims samples: samples with 8
   * or more goals fall in none, and they are exactly the shortfall.
   */
  lemma BucketsBound(s: seq<Sample>, home: bool)
    ensures Buckets(s, home, 8) + Count(s, AtLeast(home, 8)) == |s|
    ensures Buckets(s, home, 8) <= |s|
  {
    BucketsCover(s, home, 8);
  }

  /** A run consumes at least two uniforms per simulated match. */
  lemma {:induction false} SimulateConsumes(home: Rate, away: Rate, u: seq<real>, pos: nat, n: nat)
    requires Simulate(home, away, u, pos, n).Some?
    decreases n
    ensures pos + 2 * n <= Simulate(home, away, u, pos, n).value.1
  {
    if n > 0 {
      var ch := Crossing(u, pos, home.expNeg).value;
      var ca := Crossing(u, pos + ch, away.expNeg).value;
      SimulateConsumes(home, away, u, pos + ch + ca, n - 1);
    }
  }
}
