# goal-predictor core, modelled in Dafny

This project models the numerical and data-mapping core of the goal-predictor
football app and proves properties of that model. The app predicts scorelines
from Poisson goal rates.

- **Poisson grids.** The scoreline grids built from two goal rates λ, with
  pmf(k; λ) = λ^k·e^−λ/k!. These are the 6 × 6 grid of the mock-data library,
  the 6 × 6 grid of the fixture ingester and the 7 × 7 grid of the xG
  enricher. The model also covers the 1X2 figures rounded to three decimals and
  the over 2.5 / both-teams-score reductions of the Poisson panel.
- **Monte Carlo simulator.** Knuth's multiplicative sampler, the run that draws
  `numSims` scorelines, and its accumulators: outcome counters, goal totals, two
  8-bucket histograms, the scoreline map and its 15 most frequent keys.
- **Ingestion functions.** Their pure parts:
  - league filters and the "last 20" cut;
  - status mapping;
  - the fixed rates and probabilities;
  - the stored record of one fixture or match;
  - the markdown xG table parser;
  - the rate formula;
  - team-name normalisation and fuzzy matching.
- **Client adapters.** The UUID guard and the `??` / `||` defaults of the
  row-to-match adapter, the lineup panel's stable position sort, average and key
  players, and the score heatmap's grid and colour tiers.

## Module layout

- `Options`: the `Option` type.
- `Js`: the JavaScript built-ins the code relies on:
  - `trim`, `split`, `includes`, `filter`, `find`, `indexOf`, `slice`;
  - `parseInt`, `Math.round`;
  - decimal rendering inside template strings.
- `StableSort`: the stable sort behind `Array.prototype.sort`.
- `Poisson`, `GridSums`, `Outcomes`: the pmf and the grids, masked sums over
  scoreline regions, and the rounded 1X2 figures.
- One module per source file:
  - `MonteCarlo` (with the class `Tally`);
  - `MockData`, `PoissonMatrix`, `FetchMatches`, `EnrichXg`, `FetchFootballData`;
  - `UseMatches`, `LineupPanel`, `ScoreHeatmap`.

## How the model is built

**Imperative code stays imperative.** `poissonRandom`, the simulation loop,
`computePoisson`, `computeProbabilities`, `computeProbs`,
`generatePoissonMatrix`, the markdown parser and the heatmap grid builder are
methods with loops. Each is proved equal to a specification function. The
accumulators of `runMonteCarlo` are the fields of the class `Tally`:
- its two histograms are `array<nat>` of length 8;
- the ghost history `samples` ties each field to a count over the samples drawn
  so far.

**Injected values.**
- `Math.exp(-λ)` is not computed. A `Rate` carries λ together with the value
  e^−λ that the source obtains from `Math.exp`.
- `Math.random` becomes a sequence of uniforms in the simulator and a function
  from call index to value in the enricher.
- `parseFloat` and the locale time formatting are parameters.

**Numbers.** All arithmetic is over unbounded reals. `Math.round(x)` is
⌊x + 0.5⌋.

**Where the model follows the code, not the intent.** The code is followed in
these places, even where a reader might expect otherwise:
- **Histograms.** A sample with 8 or more goals is counted nowhere in the
  histograms, but it still counts in every other figure.
- **Under 2.5.** The figure shown is 1 − over25, so it includes the mass the
  truncated grid leaves out.
- **Heatmap range.** The heatmap shows only goals 0..5.
- **Club tokens.** Tokens such as "as " are removed without a word boundary, so
  they are also cut from the end of longer words ("las palmas" loses "as ").
- **Empty names.** A name that normalises to "" fuzzy-matches every name.

## Model

| member | source | states |
|---|---|---|
| `Poisson.Factorial` | src/lib/mockData.ts:117-120 | factorial(n) is at least 1 for every n, so every pmf denominator is positive |
| `Poisson.PmfNonNeg` | src/lib/mockData.ts:109-110 | for λ ≥ 0 and a positive e^−λ, every mass λ^k·e^−λ/k! is ≥ 0 |
| `Poisson.GridIsOuter` | src/lib/mockData.ts:109-111 | the scoreline grid is the outer product of the two truncated marginals: cell (i, j) = pmfH(i)·pmfA(j) |
| `Poisson.GridNonNeg` | src/lib/mockData.ts:109-111 | for valid rates no cell of the grid is negative |
| `Poisson.SwapTransposes` | src/lib/mockData.ts:109-111 | exchanging λH and λA transposes the grid |
| `MockData.GeneratePoissonMatrix` | src/lib/mockData.ts:104-115 | the nested loops return 6 rows of 6 cells, and cell [i][j] is pmf(i; λH)·pmf(j; λA) |
| `MockData.RankOne` | src/lib/mockData.ts:109-111 | the matrix has rank one: m[i][j]·m[k][l] = m[i][l]·m[k][j] |
| `MockData.GridTotal` | src/lib/mockData.ts:104-115 | the sum of all cells is Σ pmfH(i) times Σ pmfA(j) over the truncated range |
| `GridSums.OutcomePartition` | supabase/functions/fetch-matches/index.ts:87-95 | each cell goes to exactly one of home win (i > j), draw (i = j) or away win (i < j), so the three unrounded sums add up to the grid total |
| `GridSums.OverUnderPartition` | src/components/PoissonMatrix.tsx:21-22 | the over 2.5 cells (i + j > 2) and the remaining cells split the grid total |
| `GridSums.GridBounds` | src/components/PoissonMatrix.tsx:21-24 | on a grid of non-negative cells any masked sum lies between 0 and the grid total |
| `GridSums.ProductTotal` | src/lib/mockData.ts:104-115 | a grid with cells u[i]·v[j] sums to Σu · Σv |
| `GridSums.TransposeSum` | supabase/functions/fetch-matches/index.ts:83-95 | summing the transposed grid over the mirrored region (home and away exchanged) gives the same value |
| `Outcomes.RoundedOutcomes` | supabase/functions/fetch-matches/index.ts:97-101 | each stored figure is a whole number of thousandths within half a thousandth of its unrounded sum |
| `Outcomes.RoundedSumClose` | supabase/functions/fetch-matches/index.ts:87-101 | the three rounded figures add up to the grid total to within 0.0015 |
| `Outcomes.RoundedBetween` | supabase/functions/fetch-matches/index.ts:97-101 | on a non-negative grid each rounded figure lies between 0 and the rounded grid total |
| `Outcomes.SwapOutcomes` | supabase/functions/fetch-matches/index.ts:83-101 | exchanging the two rates exchanges the home-win and away-win figures and keeps the draw figure |
| `FetchMatches.ComputePoisson` | supabase/functions/fetch-matches/index.ts:70-76 | the loop returns 6 entries, and entry k is λ^k·e^−λ/k! |
| `FetchMatches.ComputeProbabilities` | supabase/functions/fetch-matches/index.ts:83-102 | the nested accumulation loops return the rounded home-win, draw and away-win masses of the 6 × 6 Poisson grid |
| `FetchMatches.FixedHomeLambda` | supabase/functions/fetch-matches/index.ts:155-158 | round(1.35·1.15·100)/100 is exactly 1.55 |
| `FetchMatches.MatchStatus` | supabase/functions/fetch-matches/index.ts:163-169 | "live" exactly for 1H/2H/HT/ET/P/BT/LIVE, "finished" exactly for FT/AET/PEN, "upcoming" for every other code |
| `FetchMatches.RecentFixtures` | supabase/functions/fetch-matches/index.ts:146 | `slice(-20)` keeps the last min(20, n) fixtures in their original order |
| `FetchMatches.LeaguesToFetch` | supabase/functions/fetch-matches/index.ts:118-120 | without a filter, or with an empty one, all leagues are kept; otherwise exactly the leagues whose id equals `parseInt(filter)` |
| `FetchMatches.FilterSelects` | supabase/functions/fetch-matches/index.ts:118-120 | a filter that `parseInt` reads as a league's id selects that league alone |
| `FetchMatches.FilterById` | supabase/functions/fetch-matches/index.ts:119 | passing a league id written in decimal selects that league alone |
| `FetchMatches.FilterNaN` | supabase/functions/fetch-matches/index.ts:119 | a non-empty filter that `parseInt` reads as NaN selects no league |
| `FetchMatches.ToRecord` | supabase/functions/fetch-matches/index.ts:149-192 | every field of the record: fixture id, league name and id, season 2024, team names, ids and logos, kickoff, mapped status, scores, venue (`Js.OrNull` of the venue name), round, the fixed rates 1.55 / 1.35 and their rounded 1X2 figures |
| `FetchMatches.LeagueRecords` | supabase/functions/fetch-matches/index.ts:143-149 | one record per fixture of the last min(20, n), in fixture order |
| `Js.Trim` | supabase/functions/enrich-xg/index.ts:78 | the trimmed string is empty or starts and ends with a non-whitespace character |
| `Js.TrimIsSlice` | supabase/functions/enrich-xg/index.ts:78 | `trim` is the contiguous slice of the input that starts right after its leading whitespace |
| `Js.TrimDropsBlank` | supabase/functions/enrich-xg/index.ts:78 | everything `trim` cuts off, before and after the slice, is whitespace |
| `Js.TrimChars` | supabase/functions/enrich-xg/index.ts:78 | `trim` introduces no character |
| `Js.Split` | supabase/functions/enrich-xg/index.ts:72 | `split` on one character yields at least one piece, and no piece contains the separator |
| `Js.JoinSplit` | supabase/functions/enrich-xg/index.ts:78 | joining the pieces of `split` with the separator gives back the original string |
| `Js.ContainsAt` | supabase/functions/enrich-xg/index.ts:77 | `includes` holds exactly when the needle occurs at some offset, in both directions |
| `Js.Filter` | src/components/LineupPanel.tsx:18 | `filter` keeps only input elements that pass, keeps every element that passes, and is never longer than its input |
| `Js.FilterAppend` | src/components/LineupPanel.tsx:18 | `filter` of a concatenation is the concatenation of the filtered parts, so input order is kept |
| `Js.FilterSingleton` | src/components/LineupPanel.tsx:18 | one element is kept exactly when it passes |
| `Js.FilterSubMultiset` | src/components/LineupPanel.tsx:18 | no element is kept more often than it occurs in the input |
| `Js.Find` | supabase/functions/enrich-xg/index.ts:235-236 | `find` gives an element that passes, or undefined when none does |
| `Js.FindFirst` | supabase/functions/enrich-xg/index.ts:235-236 | `find` gives the first passing element |
| `Js.IndexOf` | src/components/LineupPanel.tsx:15 | `indexOf` gives the first position of the element, or −1 exactly when the element is absent |
| `Js.LastN` | supabase/functions/fetch-matches/index.ts:146 | `slice(-n)` keeps the last min(n, length) elements in order |
| `Js.Round` | supabase/functions/fetch-matches/index.ts:98-100 | `Math.round(x)` lies in (x − 0.5, x + 0.5] |
| `Js.RoundTo` | supabase/functions/fetch-matches/index.ts:98-100 | `Math.round(x·s)/s` lies in (x − 0.5/s, x + 0.5/s] and is a whole multiple of 1/s |
| `Js.RoundToUnique` | supabase/functions/fetch-matches/index.ts:98-100 | any whole multiple of 1/s in that band is the rounded value, so the two facts above determine it |
| `Js.RoundToMonotone` | supabase/functions/enrich-xg/index.ts:135 | rounding to 1/s never reverses the order of two values |
| `Js.ParseIntDecimal` | supabase/functions/fetch-matches/index.ts:119 | `parseInt` of a number's decimal rendering gives back that number |
| `Js.DecimalInjective` | src/lib/monteCarlo.ts:59 | different numbers have different decimal renderings |
| `StableSort.SortBy` | src/components/LineupPanel.tsx:14-16 | the sort result is ordered by rank, is a permutation of the input, and keeps each rank class in input order |
| `StableSort.StableSortIsSortBy` | src/components/LineupPanel.tsx:14-16 | any ordered result with the same rank classes is this sort's result: a stable sort's output is fully determined |
| `MonteCarlo.CrossingFirst` | src/lib/monteCarlo.ts:26-29 | the draw count is the first n ≥ 1 whose running product is ≤ e^−λ; none exists only when no prefix of the stream gets there |
| `MonteCarlo.PoissonRandom` | src/lib/monteCarlo.ts:22-31 | the do-while returns (first crossing count) − 1 ≥ 0 and consumes exactly that many draws plus one, so at least one |
| `MonteCarlo.Simulate` | src/lib/monteCarlo.ts:41-44 | a run of n matches yields exactly n samples |
| `MonteCarlo.SimulateConsumes` | src/lib/monteCarlo.ts:42-43 | every simulated match consumes at least two uniforms |
| `MonteCarlo.Count` | src/lib/monteCarlo.ts:46-51 | no counter exceeds the number of samples, so over25 and btts are ≤ numSims |
| `MonteCarlo.OutcomesPartition` | src/lib/monteCarlo.ts:46-48 | every sample is exactly one of home win, draw or away win, so the three counts add up to the number of samples |
| `MonteCarlo.OutcomePctSum` | src/lib/monteCarlo.ts:74-76 | the three outcome percentages add up to 100 |
| `MonteCarlo.PctBounds` | src/lib/monteCarlo.ts:63 | a count of at most numSims gives a percentage in [0, 100] |
| `MonteCarlo.Over25Goals` | src/lib/monteCarlo.ts:50 | each over 2.5 sample holds at least 3 goals, so 3·over25 ≤ totalHome + totalAway |
| `MonteCarlo.BttsGoals` | src/lib/monteCarlo.ts:51 | each both-score sample holds a goal on each side, so btts ≤ totalHome and btts ≤ totalAway |
| `MonteCarlo.BucketsCover` | src/lib/monteCarlo.ts:56-57 | the buckets below m plus the samples with at least m goals account for every sample |
| `MonteCarlo.BucketsBound` | src/lib/monteCarlo.ts:37-38 | the 8 buckets hold at most numSims samples, and the shortfall is exactly the samples with 8 or more goals |
| `MonteCarlo.HistogramSnoc` | src/lib/monteCarlo.ts:56-57 | `counts[g]++` for g < 8, and nothing for larger g, turns the histogram of the earlier samples into that of the extended ones |
| `MonteCarlo.Bucket` | src/lib/monteCarlo.ts:56-57 | after the update the array is the histogram of the samples including the new one |
| `MonteCarlo.ScoreKeyInjective` | src/lib/monteCarlo.ts:59 | different scorelines get different "h-a" keys |
| `MonteCarlo.LookupBump` | src/lib/monteCarlo.ts:60 | `scoreMap[key] = (scoreMap[key] \|\| 0) + 1` adds one to that key's count and changes no other key's count |
| `MonteCarlo.ValueSumBump` | src/lib/monteCarlo.ts:60 | each update raises the sum of the stored counts by one |
| `MonteCarlo.BumpKeys` | src/lib/monteCarlo.ts:60 | an update only introduces the bumped key and never duplicates a key |
| `MonteCarlo.ScoreTableCounts` | src/lib/monteCarlo.ts:59-60 | the entry of "h-a" counts the samples equal to (h, a), and an unseen scoreline reads 0 |
| `MonteCarlo.ScoreTableTotal` | src/lib/monteCarlo.ts:59-60 | the counts of the score map add up to the number of samples |
| `MonteCarlo.ScoreTableUnique` | src/lib/monteCarlo.ts:59-60 | each scoreline key appears once in the score map |
| `MonteCarlo.TopScores` | src/lib/monteCarlo.ts:67-69 | `scoreDist` keeps min(15, n) entries, the leading part of the stable sort by descending count |
| `MonteCarlo.TopScoresOrdered` | src/lib/monteCarlo.ts:68 | the kept entries come in non-increasing count order |
| `MonteCarlo.TopScoresKeepLargest` | src/lib/monteCarlo.ts:68-69 | no dropped entry has a larger count than any kept entry |
| `MonteCarlo.TopScoresStable` | src/lib/monteCarlo.ts:68-69 | for each count, the kept entries are the first ones of that count in first-seen map order |
| `MonteCarlo.BuildScoreDist` | src/lib/monteCarlo.ts:66-70 | the `forEach` writes each kept key with its percentage, in the sorted order |
| `MonteCarlo.Tally.constructor` | src/lib/monteCarlo.ts:35-39 | all counters are 0, both histograms are fresh 8-element zero arrays and the map is empty: the accumulators of no samples |
| `MonteCarlo.Tally.Add` | src/lib/monteCarlo.ts:46-60 | after one sample, every accumulator is the corresponding count, sum, histogram or table over the samples recorded so far |
| `MonteCarlo.Tally.CountResult` | src/lib/monteCarlo.ts:46-51 | the if-chains raise exactly the counters whose condition the new sample meets |
| `MonteCarlo.Tally.AddGoals` | src/lib/monteCarlo.ts:53-54 | the totals become the goal sums over the extended samples |
| `MonteCarlo.Tally.AddScore` | src/lib/monteCarlo.ts:59-60 | the map becomes the score table of the extended samples |
| `MonteCarlo.SimulateMatch` | src/lib/monteCarlo.ts:42-43 | the home draw and then the away draw give the first sample of the remaining run, and the rest of the run continues from where they stopped |
| `MonteCarlo.SimulateAll` | src/lib/monteCarlo.ts:41-61 | the loop pushes exactly the sampled scorelines in order, and the tally holds their accumulators |
| `MonteCarlo.RunMonteCarlo` | src/lib/monteCarlo.ts:33-85 | `simulations` are the numSims samples, each percentage is its count over them, the averages are total/numSims, the histograms map to percentages and `scoreDist` is the top 15 of the score table |
| `PoissonMatrix.Over25Bounds` | src/components/PoissonMatrix.tsx:21-22 | on a non-negative grid `over25` lies between 0 and the grid total |
| `PoissonMatrix.BttsIsBothScore` | src/components/PoissonMatrix.tsx:23-24 | the row-guarded nested reduce is the mass of the cells with i > 0 and j > 0 |
| `PoissonMatrix.BttsBounds` | src/components/PoissonMatrix.tsx:23-24 | on a non-negative grid `btts` lies between 0 and the grid total |
| `PoissonMatrix.UnderShown` | src/components/PoissonMatrix.tsx:81 | over 2.5 and the shown under 2.5 always add up to exactly 1 |
| `PoissonMatrix.UnderShownCountsMissingMass` | src/components/PoissonMatrix.tsx:81 | the shown under figure is the in-grid under mass plus all the mass outside the truncated grid |
| `PoissonMatrix.HeatTier` | src/components/PoissonMatrix.tsx:12-18 | a tier is reached exactly above its strict threshold 0.02 / 0.04 / 0.07 / 0.10 |
| `PoissonMatrix.HeatTierMonotone` | src/components/PoissonMatrix.tsx:12-18 | a larger probability never gets a lower tier |
| `PoissonMatrix.GetHeatColor` | src/components/PoissonMatrix.tsx:12-18 | the strongest class exactly above 0.10, and the muted class exactly at 0.02 or below |
| `EnrichXg.Cells` | supabase/functions/enrich-xg/index.ts:78 | no more cells than pieces of the split |
| `EnrichXg.CellsShape` | supabase/functions/enrich-xg/index.ts:78 | every cell is non-empty, holds no "\|" and has no whitespace at either end |
| `EnrichXg.CellsOfPieces` | supabase/functions/enrich-xg/index.ts:78 | the cells of pieces joined by "\|" are the trimmed pieces, empty ones dropped, in order |
| `EnrichXg.NumbersParsed` | supabase/functions/enrich-xg/index.ts:86 | every number kept is `parseFloat` of some cell |
| `EnrichXg.NumbersAppend` | supabase/functions/enrich-xg/index.ts:86 | the numbers of two runs of cells are those of each run, in cell order |
| `EnrichXg.NumbersOne` | supabase/functions/enrich-xg/index.ts:86 | one cell adds its number when it parses, and nothing when it is NaN |
| `EnrichXg.FirstPairFrom` | supabase/functions/enrich-xg/index.ts:99-112 | the first position at or after `from` whose value and successor both lie in (5, 120), with none before it |
| `EnrichXg.GamesPlayed` | supabase/functions/enrich-xg/index.ts:96 | games played is 0 or lies strictly in (0, 50) |
| `EnrichXg.XgPair` | supabase/functions/enrich-xg/index.ts:99-112 | the scan yields (0, 0) or two xG-like values |
| `EnrichXg.ParseLineChecks` | supabase/functions/enrich-xg/index.ts:76-124 | a row comes only from a line that passes every skip test, and then 0 < gamesPlayed < 50, the name is longer than 2 characters, and both xG figures are > 0 |
| `EnrichXg.XgFromFirstPair` | supabase/functions/enrich-xg/index.ts:99-121 | xG for and against are the first xG-like neighbour pair after games played; without one they are gamesPlayed·1.3 and gamesPlayed·1.2 |
| `EnrichXg.PpdaRange` | supabase/functions/enrich-xg/index.ts:116-123 | for a uniform in [0, 1) the placeholder PPDA lies in [8, 14] |
| `EnrichXg.ParsedRows` | supabase/functions/enrich-xg/index.ts:76-113 | one parse result per line, the i-th being the row of line i |
| `EnrichXg.Emitted` | supabase/functions/enrich-xg/index.ts:76-126 | at most one entry per line |
| `EnrichXg.EmittedValid` | supabase/functions/enrich-xg/index.ts:114-124 | every emitted entry has 0 < gamesPlayed < 50, a name longer than 2 characters and positive xG figures |
| `EnrichXg.EmittedPrefix` | supabase/functions/enrich-xg/index.ts:76-126 | the entries of the first n lines are a prefix of all entries: output follows line order |
| `EnrichXg.ParseRow` | supabase/functions/enrich-xg/index.ts:77-87 | each `continue` of the loop body skips exactly the lines the row specification rejects |
| `EnrichXg.RowFromNumbers` | supabase/functions/enrich-xg/index.ts:91-125 | the scanning loop with `break` finds the first xG-like pair and builds the row the specification gives |
| `EnrichXg.ParseXgFromMarkdown` | supabase/functions/enrich-xg/index.ts:70-129 | the result is the entries emitted for the markdown's lines |
| `EnrichXg.ParseLines` | supabase/functions/enrich-xg/index.ts:76-126 | the loop pushes one entry per accepted line, in order, the k-th using the k-th random value |
| `EnrichXg.ComputeLambda` | supabase/functions/enrich-xg/index.ts:131-136 | 1.3 without games played; otherwise within 0.005 of xG per game times 1.1 (home) or 0.9 (away); always a whole number of hundredths |
| `EnrichXg.HomeRateAtLeastAway` | supabase/functions/enrich-xg/index.ts:134-135 | with the same figures, the home rate is never below the away rate |
| `EnrichXg.RateIgnoresXgAgainst` | supabase/functions/enrich-xg/index.ts:131-136 | xG against never changes the rate |
| `EnrichXg.ComputeProbs` | supabase/functions/enrich-xg/index.ts:138-155 | the nested loops return the rounded home-win, draw and away-win masses of the 7 × 7 Poisson grid |
| `EnrichXg.AddRow` | supabase/functions/enrich-xg/index.ts:141-148 | the inner loop adds row i's cells to home win (i > j), draw (i = j) or away win (i < j) |
| `EnrichXg.StripClubTokens` | supabase/functions/enrich-xg/index.ts:166 | removing the club tokens never lengthens the name and introduces no character |
| `EnrichXg.StripLeadingToken` | supabase/functions/enrich-xg/index.ts:166 | a token at the front is dropped and the scan goes on after it |
| `EnrichXg.StripNoToken` | supabase/functions/enrich-xg/index.ts:166 | a name where no token starts anywhere is left unchanged |
| `EnrichXg.StripNoSpace` | supabase/functions/enrich-xg/index.ts:166 | a name without a space is left unchanged, since every token ends in a space |
| `EnrichXg.LasPalmas` | supabase/functions/enrich-xg/index.ts:166 | with no word boundary, "las palmas" loses the token "as " inside "las" and becomes "lpalmas" |
| `EnrichXg.StripTrailingSuffix` | supabase/functions/enrich-xg/index.ts:167 | a prefix of the input; exactly 3 characters are cut when it ends in a word-initial "afc", exactly 2 when it ends in a word-initial "fc", "cf" or "sc", otherwise none |
| `EnrichXg.NormalizeTeamName` | supabase/functions/enrich-xg/index.ts:163-170 | the normalised name holds only a–z, 0–9 and spaces, with no leading or trailing space |
| `EnrichXg.OverlapNonEmpty` | supabase/functions/enrich-xg/index.ts:178-181 | the overlap is non-empty exactly when the two names share a word longer than 3 characters |
| `EnrichXg.FuzzyMatch` | supabase/functions/enrich-xg/index.ts:172-182 | true exactly when the normalised names are equal, one contains the other, or they share a word longer than 3 characters |
| `EnrichXg.FuzzyMatchReflexive` | supabase/functions/enrich-xg/index.ts:175 | every name matches itself |
| `EnrichXg.FuzzyMatchSymmetric` | supabase/functions/enrich-xg/index.ts:172-182 | matching does not depend on argument order |
| `EnrichXg.EmptyNameMatchesAll` | supabase/functions/enrich-xg/index.ts:176 | a name that normalises to "" matches every name, both ways |
| `EnrichXg.FindTeam` | supabase/functions/enrich-xg/index.ts:235-236 | the first scraped row whose team fuzzy-matches the name, or none when no row matches |
| `EnrichXg.MatchLambdas` | supabase/functions/enrich-xg/index.ts:240-245 | the rate of a matched side is `computeLambda` of its row (home factor at home), otherwise 1.35 or 1.2; a match where neither side matched is skipped before this point (line 238) |
| `FetchFootballData.LeagueByCode` | supabase/functions/fetch-football-data/index.ts:51 | `LEAGUES[code]` is the registered league with that code, or undefined when none has it |
| `FetchFootballData.LeaguesToFetch` | supabase/functions/fetch-football-data/index.ts:50-52 | no filter gives all six leagues; a filter gives at most one, exactly the league with that code |
| `FetchFootballData.CodesDistinct` | supabase/functions/fetch-football-data/index.ts:10-17 | no two registered leagues share a code |
| `FetchFootballData.KnownCodeSelects` | supabase/functions/fetch-football-data/index.ts:50-51 | each registered code selects exactly its own league |
| `FetchFootballData.UnknownCodeSelectsNone` | supabase/functions/fetch-football-data/index.ts:51 | an unregistered code selects nothing |
| `FetchFootballData.MatchStatus` | supabase/functions/fetch-football-data/index.ts:74-79 | "live" exactly for IN_PLAY/PAUSED/LIVE, "finished" exactly for FINISHED, "upcoming" otherwise |
| `FetchFootballData.ApiId` | supabase/functions/fetch-football-data/index.ts:82 | the stored id is the match id shifted by 9000000 |
| `FetchFootballData.ApiIdInjective` | supabase/functions/fetch-football-data/index.ts:82 | distinct matches get distinct stored ids |
| `FetchFootballData.ApiIdAboveOffset` | supabase/functions/fetch-football-data/index.ts:81-82 | a non-negative match id never collides with an id below the offset |
| `Js.OrNull` | supabase/functions/fetch-football-data/index.ts:99 | `x \|\| null` turns "" and null into null and keeps every other string; the fixture ingester stores `venue?.name \|\| null` the same way (supabase/functions/fetch-matches/index.ts:191) |
| `FetchFootballData.TeamName` | supabase/functions/fetch-football-data/index.ts:89-90 | the name when truthy, else the short name when truthy, else "TBD"; never empty |
| `FetchFootballData.TeamId` | supabase/functions/fetch-football-data/index.ts:91-92 | the team's id, or null without a team |
| `FetchFootballData.Crest` | supabase/functions/fetch-football-data/index.ts:93-94 | the crest when the team has a non-empty one, otherwise null |
| `FetchFootballData.Round` | supabase/functions/fetch-football-data/index.ts:100 | null exactly for a null or 0 matchday, otherwise "Matchday " and the number |
| `FetchFootballData.RoundInjective` | supabase/functions/fetch-football-data/index.ts:100 | different matchdays get different labels |
| `FetchFootballData.IntToDecimalInjective` | supabase/functions/fetch-football-data/index.ts:100 | two integers with the same decimal rendering are equal |
| `FetchFootballData.Season` | supabase/functions/fetch-football-data/index.ts:88 | the filter's season when truthy, otherwise 2025 |
| `FetchFootballData.ToRecord` | supabase/functions/fetch-football-data/index.ts:84-107 | every field of the stored row: offset id, league name, a null league id, status, names, ids, crests, scores, venue, round, season, and the fixed 1.55 / 1.35 rates and 0.40 / 0.28 / 0.32 probabilities |
| `FetchFootballData.FixedProbabilitiesSum` | supabase/functions/fetch-football-data/index.ts:104-106 | the fixed probabilities add up to 1 |
| `FetchFootballData.LeagueRecords` | supabase/functions/fetch-football-data/index.ts:64-73 | no rows without matches; otherwise one row per match of the last min(20, n), in order |
| `UseMatches.UuidShapeIff` | src/hooks/useMatches.ts:24 | the pattern accepts exactly the 36-character strings with dashes at 8, 13, 18 and 23 and hex digits of either case elsewhere |
| `UseMatches.QueryEnabledIff` | src/hooks/useMatches.ts:38 | the single-match query is enabled exactly for UUIDs; the emptiness test adds nothing |
| `UseMatches.ToNumber` | src/hooks/useMatches.ts:65 | `Number(null)` is 0 and every other value passes through |
| `UseMatches.OrDefault` | src/hooks/useMatches.ts:65-80 | `Number(v) \|\| d` gives d for null, 0 and NaN, and the value otherwise |
| `UseMatches.OrIfNull` | src/hooks/useMatches.ts:63-64 | `v ?? d` gives d only for null, and keeps 0 and NaN |
| `UseMatches.DbMatchToMatch` | src/hooks/useMatches.ts:57-84 | identity, league, team names and logos are copied unchanged; each numeric field takes its `??` or `\|\|` default; the kickoff is the formatted time plus " CET" or "TBD"; the status is kept or "upcoming" |
| `UseMatches.ZeroEloKeptZeroRateReplaced` | src/hooks/useMatches.ts:63-65 | a stored 0 Elo is kept while a stored 0 rate becomes 1.35 |
| `UseMatches.DefaultedFieldsNonZero` | src/hooks/useMatches.ts:65-72 | the rates, probabilities and odds of the adapted match are never 0 |
| `UseMatches.StatusPassesThrough` | src/hooks/useMatches.ts:76 | the status is never empty and a non-empty stored status is passed through unchecked |
| `LineupPanel.PosRank` | src/components/LineupPanel.tsx:11-15 | the rank is the position's place in `posOrder`, and −1 exactly for an unlisted position |
| `LineupPanel.SortedPlayersSpec` | src/components/LineupPanel.tsx:14-16 | the sorted list is a permutation of the lineup in non-decreasing rank, with equal ranks in lineup order |
| `LineupPanel.SortedPlayersUnique` | src/components/LineupPanel.tsx:14-16 | any ordering with those properties is the sorted list |
| `LineupPanel.UnknownPositionsFirst` | src/components/LineupPanel.tsx:11-16 | players of unlisted positions come before every listed position, GK included |
| `LineupPanel.RatingSumBounds` | src/components/LineupPanel.tsx:17 | ratings all in [lo, hi] sum to a value in [n·lo, n·hi] |
| `LineupPanel.AvgRatingBounds` | src/components/LineupPanel.tsx:17 | the average rating lies between the lowest and the highest rating |
| `LineupPanel.RatingSumSortInvariant` | src/components/LineupPanel.tsx:17 | the reduce gives the same sum for any reordering of the players |
| `LineupPanel.SortedAverage` | src/components/LineupPanel.tsx:14-17 | the sorted list has the lineup's average |
| `LineupPanel.KeyPlayersOne` | src/components/LineupPanel.tsx:18 | a single player is kept exactly when it is a key player |
| `LineupPanel.KeyPlayersAppend` | src/components/LineupPanel.tsx:18 | the key players of a concatenation are those of each part, in order |
| `LineupPanel.KeyPlayersExact` | src/components/LineupPanel.tsx:18 | a player is in the list exactly when they are in the lineup and marked key |
| `LineupPanel.RatingTier` | src/components/LineupPanel.tsx:53 | the top tier exactly from 8.5, the middle exactly in [8.0, 8.5), muted below 8.0 |
| `LineupPanel.RatingTierMonotone` | src/components/LineupPanel.tsx:53 | a higher rating never gets a lower tier |
| `ScoreHeatmap.Get` | src/components/ScoreHeatmap.tsx:26 | a found value is stored under the key, and a missing key has no entry |
| `ScoreHeatmap.Prob` | src/components/ScoreHeatmap.tsx:26 | a missing key reads as 0, and a present one reads as its value |
| `ScoreHeatmap.BuildGrid` | src/components/ScoreHeatmap.tsx:20-30 | the nested loops build 6 rows of 6 cells, and cell (h, a) has key "h-a" and the probability stored under it |
| `ScoreHeatmap.HighScoresHidden` | src/components/ScoreHeatmap.tsx:21-29 | a scoreline with more than 5 goals on a side is in no cell |
| `ScoreHeatmap.MaxValue` | src/components/ScoreHeatmap.tsx:10 | the maximum bounds every value and is one of them |
| `ScoreHeatmap.CellBelowMax` | src/components/ScoreHeatmap.tsx:10-13 | a positive cell is at most the maximum, so the maximum is positive whenever `getColor` runs |
| `ScoreHeatmap.GetColor` | src/components/ScoreHeatmap.tsx:12-18 | each tier is selected exactly by its strict band of prob/maxProb at 0.8, 0.5 and 0.3 |
| `ScoreHeatmap.MaxGetsStrong` | src/components/ScoreHeatmap.tsx:12-18 | the maximum itself gets the strongest tier |
| `ScoreHeatmap.GetColorMonotone` | src/components/ScoreHeatmap.tsx:12-18 | a larger probability never gets a weaker tier |
| `ScoreHeatmap.CellView` | src/components/ScoreHeatmap.tsx:57-60 | a cell shows "–" exactly when its probability is not positive, and otherwise its percentage in the `getColor` tier |
| `ScoreHeatmap.MissingIsDash` | src/components/ScoreHeatmap.tsx:57-60 | a scoreline absent from `scoreDist` is drawn as a dash |
| `ScoreHeatmap.TopCellStrong` | src/components/ScoreHeatmap.tsx:10-18 | the cell of the most likely scoreline, when on the grid, is drawn in the strongest tier |

## Left out

- **Network, database and HTTP plumbing.** This covers:
  - the `Deno.serve` handlers and CORS responses;
  - `fetchFromAPIFootball`, `fetchFromFootballData` and `scrapeWithFirecrawl`;
  - the Supabase upserts and updates, and the `totalInserted` / `totalUpdated` counters;
  - the rate-limit waits;
  - the react-query hooks `useMatches` and `useFetchMatches`.

  The models start from the values those calls return.
- **The per-league loops around the records.** These are the `for` loops over
  leagues and the per-match upsert loops. The model gives the records one league
  produces (`LeagueRecords`), not the sequence of database writes.
- **The xG enricher's request-level steps.** The model does not cover:
  - the league map `FBREF_LEAGUES` and its filter;
  - the query for stored matches;
  - the rounding of `home_xg` / `away_xg` before the update.

  The row matching and the rates (`FindTeam`, `MatchLambdas`, `ComputeProbs`)
  are modelled.
- **`Math.exp` and `Math.pow` accuracy, and IEEE-754 rounding.** Arithmetic is
  over exact reals. e^−λ is supplied with each rate, and `Math.round` is ⌊x + 0.5⌋.
  `toFixed` and the locale time formatting are not modelled. The formatted
  kickoff time is a parameter of `UseMatches.DbMatchToMatch`.
- **`Math.random`.** It is modelled as given values: a sequence of uniforms in
  the simulator, and a function from call index to value for the PPDA
  placeholder. No statistical claim is made about the samples.
- **`parseFloat`.** It is a parameter mapping a cell to a number or NaN. Its
  parsing rules are not modelled.
- **Unicode case mapping.** `toLowerCase` is modelled on ASCII letters only, and
  other characters are kept as they are. Non-ASCII letters whose lower case
  contains an ASCII letter therefore differ: "İ" lowers to "i" plus a combining
  dot and the Kelvin sign to "k". The source normalises "İstanbul" to
  "istanbul", while the model drops the "İ" and gives "stanbul".
- **Prototype keys in `LEAGUES[filter]`.** A filter such as "toString" would
  find an inherited property. It is modelled as not found.
- **Property order of the score map.** The JavaScript object is modelled as an
  association list in first-insertion order. This is the order `Object.entries`
  gives for non-integer keys such as "1-0".
- **The season field.** `data.filters.season` is taken as an optional integer.
  Its string form in the API response is not modelled.
- **Loop bodies split into methods.** Some source loop bodies are separate
  methods in the model, so each one verifies within the resource limit:
  - `Tally.Add` with `CountResult`, `AddGoals`, `Bucket` and `AddScore`;
  - `SimulateMatch` and `SimulateAll`;
  - `ParseRow` and `RowFromNumbers` for the parser body;
  - `AddRow` for the inner loop of `computeProbs`;
  - `BuildScoreDist` for the `forEach`.

  The order of the updates within one iteration is the source's order.
- **Rendering, animation and static data.** This covers the JSX of the
  components, the mock arrays, the lineup data and the type declarations.
- **Value bets, Kelly staking, bankroll ROI.** No code computes these: the
  figures are fixed data.
- MonteCarlo.RunMonteCarlo: requires numSims > 0, where the source would divide
  by zero and return NaN percentages. It also requires the uniform stream to be
  long enough for every draw to stop; with `Math.random` the do-while ends with
  probability 1.
- MonteCarlo.PoissonRandom: requires that some prefix of the stream from the
  current position reaches e^−λ, because the loop has no other exit.
- LineupPanel.AvgRating: requires a non-empty lineup. The source divides by the
  player count and would show NaN.
- ScoreHeatmap.MaxValue: requires a non-empty `scoreDist`. `Math.max()` of no
  values is −Infinity, and `getColor` is only reached through a positive cell,
  which implies a non-empty map.
- EnrichXg.MakeRow: `teamName.length > 2` counts UTF-16 code units, while the
  model counts characters. A two-character name with a character outside the
  Basic Multilingual Plane passes in the source but is skipped in the model.
