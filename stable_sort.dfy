/**
 * `Array.prototype.sort` with a numeric comparator `(a, b) => rank(a) - rank(b)`.
 * The language requires the sort to be stable, so its result is the unique
 * permutation that is ordered by rank and keeps equal-rank elements in their
 * input order; insertion sort is used here as the reference algorithm, and
 * `SortedUnique` shows that any other sort meeting the same promise agrees with it.
 */
module StableSort {

  predicate SortedBy<T>(s: seq<T>, rank: T -> int)
  {
    forall i, j :: 0 <= i < j < |s| ==> rank(s[i]) <= rank(s[j])
  }

  /** The elements of rank `k`, in the order they appear in `s`. */
  function OfRank<T>(s: seq<T>, rank: T -> int, k: int): seq<T>
  {
    if s == [] then [] else (if rank(s[0]) == k then [s[0]] else []) + OfRank(s[1..], rank, k)
  }

  /** Puts `x` after the elements of smaller rank and before the others. */
  function Insert<T>(x: T, s: seq<T>, rank: T -> int): (r: seq<T>)
    ensures |r| == |s| + 1
    ensures r[0] == x || (s != [] && r[0] == s[0])
  {
    if s == [] || rank(x) <= rank(s[0]) then [x] + s
    else [s[0]] + Insert(x, s[1..], rank)
  }

  /** Inserting into a sorted sequence keeps it sorted. */
  lemma {:induction false} InsertSorted<T>(x: T, s: seq<T>, rank: T -> int)
    requires SortedBy(s, rank)
    ensures SortedBy(Insert(x, s, rank), rank)
  {
    if s != [] && rank(x) > rank(s[0]) {
      var t := Insert(x, s[1..], rank);
      InsertSorted(x, s[1..], rank);
      assert Insert(x, s, rank) == [s[0]] + t;
      assert rank(s[0]) <= rank(t[0]);
    }
  }

  /** Inserting adds exactly `x`. */
  lemma {:induction false} InsertPermutes<T>(x: T, s: seq<T>, rank: T -> int)
    ensures multiset(Insert(x, s, rank)) == multiset(s) + multiset{x}
  {
    if s != [] && rank(x) > rank(s[0]) {
      InsertPermutes(x, s[1..], rank);
      assert s == [s[0]] + s[1..];
    }
  }

  /** Inserted before every element of equal rank, `x` leads its rank class. */
  lemma {:induction false} InsertOfRank<T>(x: T, s: seq<T>, rank: T -> int, k: int)
    ensures OfRank(Insert(x, s, rank), rank, k) == (if rank(x) == k then [x] else []) + OfRank(s, rank, k)
  {
    var r := Insert(x, s, rank);
    if s == [] || rank(x) <= rank(s[0]) {
      assert r[1..] == s;
    } else {
      var t := Insert(x, s[1..], rank);
      InsertOfRank(x, s[1..], rank, k);
      assert r[1..] == t;
      assert OfRank(s, rank, k) == (if rank(s[0]) == k then [s[0]] else []) + OfRank(s[1..], rank, k);
    }
  }

  /** The stable sort by ascending rank. */
  function SortBy<T>(s: seq<T>, rank: T -> int): (r: seq<T>)
    ensures SortedBy(r, rank)
    ensures multiset(r) == multiset(s)
    ensures |r| == |s|
    ensures forall k :: OfRank(r, rank, k) == OfRank(s, rank, k)
  {
    if s == [] then []
    else
      var t := SortBy(s[1..], rank);
      InsertSorted(s[0], t, rank);
      InsertPermutes(s[0], t, rank);
      assert s == [s[0]] + s[1..];
      assert forall k :: OfRank(Insert(s[0], t, rank), rank, k) == OfRank(s, rank, k) by {
        forall k
          ensures OfRank(Insert(s[0], t, rank), rank, k) == OfRank(s, rank, k)
        {
          InsertOfRank(s[0], t, rank, k);
        }
      }
      Insert(s[0], t, rank)
  }

  lemma OfRankIn<T>(s: seq<T>, rank: T -> int, i: nat)
    requires i < |s|
    ensures OfRank(s, rank, rank(s[i])) != []
  {
    if i > 0 {
      OfRankIn(s[1..], rank, i - 1);
    }
  }

  lemma HeadHasRank<T>(s: seq<T>, rank: T -> int)
    ensures s != [] ==> OfRank(s, rank, rank(s[0])) != []
  {
  }

  lemma OfRankHas<T>(s: seq<T>, rank: T -> int, k: int)
    requires OfRank(s, rank, k) != []
    ensures exists i :: 0 <= i < |s| && rank(s[i]) == k
  {
    if rank(s[0]) != k {
      OfRankHas(s[1..], rank, k);
      var i :| 0 <= i < |s[1..]| && rank(s[1..][i]) == k;
      assert rank(s[i + 1]) == k;
    }
  }

  /** In a sorted sequence, the elements of the smallest rank come first. */
  lemma OfRankHead<T>(s: seq<T>, rank: T -> int)
    requires s != [] && SortedBy(s, rank)
    ensures OfRank(s, rank, rank(s[0])) == [s[0]] + OfRank(s[1..], rank, rank(s[0]))
  {
  }

  /** Cutting a sequence short cuts each rank class short: the kept ones lead their class. */
  lemma {:induction false} OfRankPrefix<T>(s: seq<T>, rank: T -> int, k: int, m: nat)
    requires m <= |s|
    ensures OfRank(s[..m], rank, k) <= OfRank(s, rank, k)
  {
    if m > 0 {
      OfRankPrefix(s[1..], rank, k, m - 1);
      assert s[..m][1..] == s[1..][..m - 1];
    }
  }

  /** Two non-empty sorted sequences with the same rank classes start with the same rank. */
  lemma SameFirstRank<T>(u: seq<T>, v: seq<T>, rank: T -> int)
    requires u != [] && v != [] && SortedBy(u, rank) && SortedBy(v, rank)
    requires forall k :: OfRank(u, rank, k) == OfRank(v, rank, k)
    ensures rank(u[0]) == rank(v[0])
  {
    var a, b := rank(u[0]), rank(v[0]);
    OfRankIn(u, rank, 0);
    assert OfRank(v, rank, a) == OfRank(u, rank, a);
    OfRankHas(v, rank, a);
    var i :| 0 <= i < |v| && rank(v[i]) == a;
    assert b <= a by { if i > 0 { assert rank(v[0]) <= rank(v[i]); } }
    OfRankIn(v, rank, 0);
    assert OfRank(u, rank, b) == OfRank(v, rank, b);
    OfRankHas(u, rank, b);
    var j :| 0 <= j < |u| && rank(u[j]) == b;
    assert a <= b by { if j > 0 { assert rank(u[0]) <= rank(u[j]); } }
  }

  /** Two non-empty sorted sequences with the same rank classes start with the same element. */
  lemma SameHead<T>(u: seq<T>, v: seq<T>, rank: T -> int)
    requires u != [] && v != [] && SortedBy(u, rank) && SortedBy(v, rank)
    requires forall k :: OfRank(u, rank, k) == OfRank(v, rank, k)
    ensures u[0] == v[0]
  {
    SameFirstRank(u, v, rank);
    var a := rank(u[0]);
    assert rank(v[0]) == a;
    OfRankHead(u, rank);
    OfRankHead(v, rank);
    var cu, cv := OfRank(u, rank, a), OfRank(v, rank, a);
    assert cu[0] == u[0] && cv[0] == v[0];
    assert cu == cv;
  }

  /** Dropping a common first element keeps the rank classes equal. */
  lemma SameTailClasses<T>(u: seq<T>, v: seq<T>, rank: T -> int)
    requires u != [] && v != [] && u[0] == v[0]
    requires forall k :: OfRank(u, rank, k) == OfRank(v, rank, k)
    ensures forall k :: OfRank(u[1..], rank, k) == OfRank(v[1..], rank, k)
  {
    forall k
      ensures OfRank(u[1..], rank, k) == OfRank(v[1..], rank, k)
    {
      var p := if rank(u[0]) == k then [u[0]] else [];
      assert OfRank(u, rank, k) == p + OfRank(u[1..], rank, k);
      assert OfRank(v, rank, k) == p + OfRank(v[1..], rank, k);
      assert OfRank(u[1..], rank, k) == (p + OfRank(u[1..], rank, k))[|p|..];
      assert OfRank(v[1..], rank, k) == (p + OfRank(v[1..], rank, k))[|p|..];
    }
  }

  /**
   * Two sequences sorted by rank that hold the same elements of every rank in
   * the same order are equal: a stable sort has exactly one possible result.
   */
  lemma {:induction false} SortedUnique<T>(u: seq<T>, v: seq<T>, rank: T -> int)
    requires SortedBy(u, rank) && SortedBy(v, rank)
    requires forall k :: OfRank(u, rank, k) == OfRank(v, rank, k)
    ensures u == v
  {
    HeadHasRank(u, rank);
    HeadHasRank(v, rank);
    if u != [] && v != [] {
      SameHead(u, v, rank);
      SameTailClasses(u, v, rank);
      SortedUnique(u[1..], v[1..], rank);
      assert u == [u[0]] + u[1..] && v == [v[0]] + v[1..];
    }
  }

  /** Any stable sort of `s` by rank yields `SortBy(s, rank)`. */
  lemma StableSortIsSortBy<T>(s: seq<T>, t: seq<T>, rank: T -> int)
    requires SortedBy(t, rank)
    requires forall k :: OfRank(t, rank, k) == OfRank(s, rank, k)
    ensures t == SortBy(s, rank)
  {
    var r := SortBy(s, rank);
    SortedUnique(t, r, rank);
  }
}
