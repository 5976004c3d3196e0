/**
 * The figures of the lineup panel: the players ordered by position (a stable
 * sort on the position's place in `posOrder`), the average rating, the key
 * players and the colour tier of a rating.
 */
module LineupPanel {
  import opened Js
  import opened StableSort

  datatype Player = Player(name: string, position: string, number: int, rating: real, isKey: bool)

  /** `posOrder`: goalkeeper first, then defence, midfield and attack. */
  const PosOrder: seq<string> := ["GK", "RB", "CB", "LB", "RWB", "LWB", "CDM", "CM", "CAM", "RW", "LW", "SS", "ST"]

  /** `posOrder.indexOf(p.position)`: a position's place, or -1 when it is not listed. */
  function PosRank(p: Player): (r: int)
    ensures -1 <= r < |PosOrder|
    ensures r == -1 <==> p.position !in PosOrder
    ensures r >= 0 ==> PosOrder[r] == p.position
  {
    IndexOf(PosOrder, p.position)
  }

  /**
   * `[...lineup.players].sort((a, b) => rank(a) - rank(b))`. The copy is a
   * new sequence, so the lineup itself is left as it was.
   */
  function SortedPlayers(players: seq<Player>): (r: seq<Player>)
  {
    SortBy(players, PosRank)
  }

  /**
   * The sorted list holds the same players, in non-decreasing position rank,
   * and players of one rank keep their lineup order.
   */
  lemma SortedPlayersSpec(players: seq<Player>)
    ensures var r := SortedPlayers(players);
      && SortedBy(r, PosRank)
      && multiset(r) == multiset(players)
      && forall k :: OfRank(r, PosRank, k) == OfRank(players, PosRank, k)
  {
  }

  /** Any ordering with those three properties is the sorted list: the order is fully determined. */
  lemma SortedPlayersUnique(players: seq<Player>, t: seq<Player>)
    requires SortedBy(t, PosRank) && forall k :: OfRank(t, PosRank, k) == OfRank(players, PosRank, k)
    ensures t == SortedPlayers(players)
  {
    StableSortIsSortBy(players, t, PosRank);
  }

  /** A player whose position is not in `posOrder` (rank -1) is listed before every listed position. */
  lemma UnknownPositionsFirst(players: seq<Player>, i: nat, j: nat)
    requires var r := SortedPlayers(players);
      i < |r| && j < |r| && r[i].position !in PosOrder && r[j].position in PosOrder
    ensures i < j
  {
    var r := SortedPlayers(players);
    var ri, rj := PosRank(r[i]), PosRank(r[j]);
    assert ri == -1 && rj >= 0;
  }

  /** `players.reduce((s, p) => s + p.rating, 0)`, a left fold. */
  function RatingSum(players: seq<Player>): real
  {
    if players == [] then 0.0 else RatingSum(players[..|players| - 1]) + players[|players| - 1].rating
  }

  /** The average rating; the source divides by the player count, so the lineup must not be empty. */
  function AvgRating(players: seq<Player>): (avg: real)
    requires |players| > 0
  {
    RatingSum(players) / |players| as real
  }

  /** Ratings all within [lo, hi] sum to within [n·lo, n·hi]. */
  lemma {:induction false} RatingSumBounds(players: seq<Player>, lo: real, hi: real)
    requires forall i :: 0 <= i < |players| ==> lo <= players[i].rating <= hi
    ensures |players| as real * lo <= RatingSum(players) <= |players| as real * hi
  {
    if players != [] {
      RatingSumBounds(players[..|players| - 1], lo, hi);
    }
  }

  /** The average lies between the lowest and the highest rating. */
  lemma AvgRatingBounds(players: seq<Player>, lo: real, hi: real)
    requires |players| > 0
    requires forall i :: 0 <= i < |players| ==> lo <= players[i].rating <= hi
    ensures lo <= AvgRating(players) <= hi
  {
    RatingSumBounds(players, lo, hi);
    var n := |players| as real;
    assert n * lo <= RatingSum(players) <= n * hi;
    assert lo == (n * lo) / n && hi == (n * hi) / n;
  }

  /** The order of the lineup does not change the average. */
  lemma {:induction false} RatingSumSortInvariant(players: seq<Player>, other: seq<Player>)
    requires multiset(players) == multiset(other)
    ensures RatingSum(players) == RatingSum(other)
    decreases |players|
  {
    if players != [] {
      var last := players[|players| - 1];
      assert last in multiset(other);
      var k :| 0 <= k < |other| && other[k] == last;
      var rest := other[..k] + other[k + 1..];
      assert other == other[..k] + [last] + other[k + 1..];
      assert players == players[..|players| - 1] + [last];
      assert multiset(players) == multiset(players[..|players| - 1]) + multiset{last};
      assert multiset(other) == multiset(other[..k]) + multiset{last} + multiset(other[k + 1..]);
      assert multiset(rest) == multiset(other[..k]) + multiset(other[k + 1..]);
      assert multiset(rest) == multiset(other) - multiset{last};
      assert multiset(players[..|players| - 1]) == multiset(players) - multiset{last};
      RatingSumSortInvariant(players[..|players| - 1], rest);
      RatingSumRemove(other, k);
    }
  }

  /** Taking the element at k out of the fold removes its rating from the sum. */
  lemma {:induction false} RatingSumRemove(s: seq<Player>, k: nat)
    requires k < |s|
    ensures RatingSum(s) == RatingSum(s[..k] + s[k + 1..]) + s[k].rating
    decreases |s|
  {
    if k < |s| - 1 {
      var init := s[..|s| - 1];
      RatingSumRemove(init, k);
      assert init[..k] + init[k + 1..] == (s[..k] + s[k + 1..])[..|s| - 2];
      assert (s[..k] + s[k + 1..])[|s| - 2] == s[|s| - 1];
    } else {
      assert s[..k] + s[k + 1..] == s[..|s| - 1];
    }
  }

  /** The sorted list shows the same average as the lineup. */
  lemma SortedAverage(players: seq<Player>)
    requires |players| > 0
    ensures |SortedPlayers(players)| == |players|
    ensures AvgRating(SortedPlayers(players)) == AvgRating(players)
  {
    RatingSumSortInvariant(SortedPlayers(players), players);
  }

  /** `players.filter(p => p.isKey)`. */
  function KeyPlayers(players: seq<Player>): (r: seq<Player>)
  {
    Filter(players, (p: Player) => p.isKey)
  }

  /** One player is kept exactly when it is a key player. */
  lemma KeyPlayersOne(p: Player)
    ensures KeyPlayers([p]) == if p.isKey then [p] else []
  {
  }

  /** The key players of a concatenation are those of each part, in order: the lineup order is kept. */
  lemma {:induction false} KeyPlayersAppend(a: seq<Player>, b: seq<Player>)
    ensures KeyPlayers(a + b) == KeyPlayers(a) + KeyPlayers(b)
  {
    if a == [] {
      assert a + b == b;
    } else {
      assert (a + b)[0] == a[0];
      assert (a + b)[1..] == a[1..] + b;
      KeyPlayersAppend(a[1..], b);
    }
  }

  /** Every key player, and only those, is in the list. */
  lemma KeyPlayersExact(players: seq<Player>, p: Player)
    ensures p in KeyPlayers(players) <==> p in players && p.isKey
  {
    var r := KeyPlayers(players);
    if p in r {
      var i :| 0 <= i < |r| && r[i] == p;
    }
    if p in players && p.isKey {
      var i :| 0 <= i < |players| && players[i] == p;
    }
  }

  /** The colour of a rating: the top tier from 8.5, the middle one from 8.0, muted below. */
  datatype Tier = Top | Middle | Muted

  function RatingTier(rating: real): (t: Tier)
    ensures t == Top <==> rating >= 8.5
    ensures t == Middle <==> 8.0 <= rating < 8.5
    ensures t == Muted <==> rating < 8.0
  {
    if rating >= 8.5 then Top else if rating >= 8.0 then Middle else Muted
  }

  function TierLevel(t: Tier): nat
  {
    match t
    case Muted => 0
    case Middle => 1
    case Top => 2
  }

  /** A higher rating never gets a lower tier. */
  lemma RatingTierMonotone(x: real, y: real)
    requires x <= y
    ensures TierLevel(RatingTier(x)) <= TierLevel(RatingTier(y))
  {
  }
}
