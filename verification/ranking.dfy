/**
  Ranking of price levels by notional exposure, `|signed price * aggregated volume|`:
  the contract of the top-levels query, the sort it relies on, and the facts
  that connect a sorted listing of the levels to that contract.
 */
module Ranking {
  import opened Ledger

  /** How many levels the query returns at most. */
  const TOP_LEVELS: nat := 10

  function Min(a: nat, b: nat): nat {
    if a <= b then a else b
  }

  function Abs(x: int): nat {
    if x < 0 then -x else x
  }

  /** The exposure of a level with signed price `price` holding `volume`. */
  function Score(price: int, volume: int): nat {
    Abs(price * volume)
  }

  /** The exposure of level `k` in `levels`. */
  function LevelScore(levels: map<int, int>, k: int): nat {
    Score(k, VolumeAt(levels, k))
  }

  /** What the source needs for every exposure to be computed without `int` overflow. */
  predicate ScoresFit(levels: map<int, int>) {
    forall k :: k in levels ==> Score(k, levels[k]) <= MAX_INT
  }

  /** Every level has an exposure of its own: no two levels tie. */
  ghost predicate DistinctScores(levels: map<int, int>) {
    forall k1, k2 :: k1 in levels && k2 in levels && k1 != k2 ==> LevelScore(levels, k1) != LevelScore(levels, k2)
  }

  /**
    `r` is a valid answer to "the `n` levels of highest exposure": it holds
    min(n, number of levels) distinct levels, ordered by non-increasing
    exposure, and no level left out has a higher exposure than one returned.
   */
  ghost predicate Ranked(levels: map<int, int>, r: seq<int>, n: nat) {
    && |r| == Min(n, |levels|)
    && (forall i :: 0 <= i < |r| ==> r[i] in levels)
    && (forall i, j :: 0 <= i < j < |r| ==> r[i] != r[j])
    && (forall i, j :: 0 <= i < j < |r| ==> LevelScore(levels, r[i]) >= LevelScore(levels, r[j]))
    && (forall k, i :: k in levels && k !in r && 0 <= i < |r| ==> LevelScore(levels, k) <= LevelScore(levels, r[i]))
  }

  /** The (signed price, volume) pairs of a level map, each level once, in some order. */
  ghost predicate Listing(levels: map<int, int>, s: seq<(int, int)>) {
    && |s| == |levels|
    && (forall i :: 0 <= i < |s| ==> s[i].0 in levels && s[i].1 == levels[s[i].0])
    && (forall i, j :: 0 <= i < j < |s| ==> s[i].0 != s[j].0)
    && (forall k :: k in levels ==> (k, levels[k]) in s)
  }

  ghost predicate SortedByScore(s: seq<(int, int)>) {
    forall i, j :: 0 <= i < j < |s| ==> PairScore(s[i]) >= PairScore(s[j])
  }

  ghost predicate Distinct<T>(s: seq<T>) {
    forall i, j :: 0 <= i < j < |s| ==> s[i] != s[j]
  }

  /** The exposure of a (signed price, volume) pair, the key of the sort. */
  function PairScore(p: (int, int)): nat {
    Score(p.0, p.1)
  }

  /** `s[..n]` is in order of non-increasing exposure, except that `s[j]` may be out of place towards the front. */
  ghost predicate SortedExcept(s: seq<(int, int)>, n: int, j: int)
    requires 0 <= j <= n < |s|
  {
    && (forall p, q :: 0 <= p < q <= n && p != j && q != j ==> PairScore(s[p]) >= PairScore(s[q]))
    && (forall q :: j < q <= n ==> PairScore(s[j]) > PairScore(s[q]))
  }

  method Swap(a: array<(int, int)>, j: int)
    requires 0 < j < a.Length
    modifies a
    ensures a[..] == old(a[..])[j - 1 := old(a[j])][j := old(a[j - 1])]
    ensures multiset(a[..]) == old(multiset(a[..]))
  {
    a[j - 1], a[j] := a[j], a[j - 1];
  }

  /**
    Sorts the pairs in place by non-increasing exposure. The order among
    pairs of equal exposure is left unspecified.
   */
  method SortByScore(a: array<(int, int)>)
    modifies a
    ensures SortedByScore(a[..])
    ensures multiset(a[..]) == old(multiset(a[..]))
  {
    var i := 0;
    while i < a.Length
      invariant 0 <= i <= a.Length
      invariant SortedByScore(a[..i])
      invariant multiset(a[..]) == old(multiset(a[..]))
    {
      var j := i;
      while j > 0 && PairScore(a[j - 1]) < PairScore(a[j])
        invariant 0 <= j <= i
        invariant multiset(a[..]) == old(multiset(a[..]))
        invariant SortedExcept(a[..], i, j)
      {
        Swap(a, j);
        j := j - 1;
      }
      i := i + 1;
    }
  }

  // ---------------------------------------------------------------------------
  // Permutations keep a listing a listing

  lemma {:induction false} DistinctOccursOnce<T>(s: seq<T>, x: T)
    requires Distinct(s)
    ensures multiset(s)[x] <= 1
  {
    if s != [] {
      assert s == [s[0]] + s[1..];
      DistinctOccursOnce(s[1..], x);
      if x == s[0] {
        assert x !in s[1..];
      }
    }
  }

  lemma RepeatedOccursTwice<T>(s: seq<T>, i: int, j: int)
    requires 0 <= i < j < |s| && s[i] == s[j]
    ensures multiset(s)[s[i]] >= 2
  {
    assert s == s[..j] + s[j..];
    assert s[..j][i] == s[i];
    assert s[j..][0] == s[j];
  }

  lemma PermutationKeepsDistinct<T>(s: seq<T>, t: seq<T>)
    requires Distinct(s) && multiset(s) == multiset(t)
    ensures Distinct(t)
  {
    forall i, j | 0 <= i < j < |t| ensures t[i] != t[j] {
      DistinctOccursOnce(s, t[i]);
      if t[i] == t[j] {
        RepeatedOccursTwice(t, i, j);
        assert false;
      }
    }
  }

  lemma PermutationKeepsListing(levels: map<int, int>, s: seq<(int, int)>, t: seq<(int, int)>)
    requires Listing(levels, s) && multiset(s) == multiset(t)
    ensures Listing(levels, t)
  {
    assert |t| == |multiset(t)| == |multiset(s)| == |s|;
    forall i | 0 <= i < |t| ensures t[i].0 in levels && t[i].1 == levels[t[i].0] {
      assert t[i] in multiset(s);
    }
    PermutationKeepsDistinct(s, t);
    forall k | k in levels ensures (k, levels[k]) in t {
      assert (k, levels[k]) in multiset(t);
    }
  }

  // ---------------------------------------------------------------------------
  // From a sorted listing to the ranking contract

  /** The first min(n, |levels|) levels of a listing sorted by exposure answer the query. */
  lemma SortedPrefixIsRanked(levels: map<int, int>, s: seq<(int, int)>, r: seq<int>, n: nat)
    requires Listing(levels, s) && SortedByScore(s)
    requires |r| == Min(n, |s|)
    requires forall i :: 0 <= i < |r| ==> r[i] == s[i].0
    ensures Ranked(levels, r, n)
  {
    forall i | 0 <= i < |r| ensures LevelScore(levels, r[i]) == PairScore(s[i]) {
    }
    forall k, i | k in levels && k !in r && 0 <= i < |r| ensures LevelScore(levels, k) <= LevelScore(levels, r[i]) {
      var p :| 0 <= p < |s| && s[p] == (k, levels[k]);
      assert forall j :: 0 <= j < |r| ==> s[j].0 != k;
    }
  }

  /**
    With no ties, the query has exactly one answer: any two sequences that
    satisfy the ranking contract are equal.
   */
  lemma {:induction false} RankedUnique(levels: map<int, int>, r1: seq<int>, r2: seq<int>, n: nat)
    requires DistinctScores(levels)
    requires Ranked(levels, r1, n) && Ranked(levels, r2, n)
    ensures r1 == r2
    decreases n
  {
    if |r1| > 0 {
      var x, y := r1[0], r2[0];
      assert LevelScore(levels, x) >= LevelScore(levels, y) by {
        if y in r1 {
          var i :| 0 <= i < |r1| && r1[i] == y;
          assert i == 0 || LevelScore(levels, r1[0]) >= LevelScore(levels, r1[i]);
        }
      }
      assert LevelScore(levels, y) >= LevelScore(levels, x) by {
        if x in r2 {
          var i :| 0 <= i < |r2| && r2[i] == x;
          assert i == 0 || LevelScore(levels, r2[0]) >= LevelScore(levels, r2[i]);
        }
      }
      assert x == y;
      var rest := levels - {x};
      assert rest.Keys == levels.Keys - {x};
      assert |rest| == |levels| - 1;
      RankedTail(levels, r1, n);
      RankedTail(levels, r2, n);
      RankedUnique(rest, r1[1..], r2[1..], n - 1);
      assert r1 == [x] + r1[1..] && r2 == [y] + r2[1..];
    }
  }

  /**
    `e` is an answer to the query with no ties that could reorder it: it
    holds min(n, number of levels) levels, each scoring strictly above the
    next, and every level left out scores strictly below the last one.
   */
  ghost predicate StrictlyRanked(levels: map<int, int>, e: seq<int>, n: nat) {
    && |e| == Min(n, |levels|)
    && (forall i :: 0 <= i < |e| ==> e[i] in levels)
    && (forall i :: 0 < i < |e| ==> LevelScore(levels, e[i - 1]) > LevelScore(levels, e[i]))
    && (|e| > 0 ==> forall k :: k in levels && k !in e ==> LevelScore(levels, k) < LevelScore(levels, e[|e| - 1]))
  }

  /** Strict decrease between neighbours is strict decrease between any two positions. */
  lemma {:induction false} StrictlyDecreasing(levels: map<int, int>, e: seq<int>)
    requires forall i :: 0 < i < |e| ==> LevelScore(levels, e[i - 1]) > LevelScore(levels, e[i])
    ensures forall i, j :: 0 <= i < j < |e| ==> LevelScore(levels, e[i]) > LevelScore(levels, e[j])
  {
    if |e| > 1 {
      var front := e[..|e| - 1];
      StrictlyDecreasing(levels, front);
      forall i, j | 0 <= i < j < |e| ensures LevelScore(levels, e[i]) > LevelScore(levels, e[j]) {
        if j < |e| - 1 {
          assert e[i] == front[i] && e[j] == front[j];
        } else if i < j - 1 {
          assert e[i] == front[i] && e[j - 1] == front[j - 1];
        }
      }
    }
  }

  /** An answer without ties is the only answer: every sequence satisfying the ranking contract equals it. */
  lemma {:induction false} StrictRankingIsOnlyAnswer(levels: map<int, int>, e: seq<int>, r: seq<int>, n: nat)
    requires StrictlyRanked(levels, e, n) && Ranked(levels, r, n)
    ensures r == e
    decreases n
  {
    if |r| > 0 {
      StrictHeadLeads(levels, e, r, n);
      RankedTail(levels, r, n);
      StrictlyRankedTail(levels, e, n);
      StrictRankingIsOnlyAnswer(levels - {e[0]}, e[1..], r[1..], n - 1);
      assert r == [r[0]] + r[1..] && e == [e[0]] + e[1..];
    }
  }

  /** An answer without ties satisfies the ranking contract. */
  lemma StrictlyRankedIsRanked(levels: map<int, int>, e: seq<int>, n: nat)
    requires StrictlyRanked(levels, e, n)
    ensures Ranked(levels, e, n)
  {
    StrictlyDecreasing(levels, e);
    forall k, i | k in levels && k !in e && 0 <= i < |e| ensures LevelScore(levels, k) <= LevelScore(levels, e[i]) {
      assert LevelScore(levels, e[|e| - 1]) <= LevelScore(levels, e[i]);
    }
  }

  /** Any answer starts with the level that strictly outscores all others. */
  lemma StrictHeadLeads(levels: map<int, int>, e: seq<int>, r: seq<int>, n: nat)
    requires StrictlyRanked(levels, e, n) && Ranked(levels, r, n) && |r| > 0
    ensures |e| > 0 && r[0] == e[0]
  {
    StrictlyDecreasing(levels, e);
    assert LevelScore(levels, e[|e| - 1]) <= LevelScore(levels, e[0]);
  }

  /** Dropping the leading level from the map and from a strict answer leaves a strict answer for n - 1. */
  lemma StrictlyRankedTail(levels: map<int, int>, e: seq<int>, n: nat)
    requires StrictlyRanked(levels, e, n) && |e| > 0
    ensures n > 0 && StrictlyRanked(levels - {e[0]}, e[1..], n - 1)
  {
    StrictlyDecreasing(levels, e);
    var x := e[0];
    var rest := levels - {x};
    var tail := e[1..];
    assert rest.Keys == levels.Keys - {x};
    assert |rest| == |levels| - 1;
    forall k | k != x ensures LevelScore(rest, k) == LevelScore(levels, k) {
    }
    forall i | 0 <= i < |tail| ensures tail[i] == e[i + 1] && tail[i] != x && tail[i] in rest {
      assert LevelScore(levels, e[0]) > LevelScore(levels, e[i + 1]);
    }
    forall i | 0 < i < |tail| ensures LevelScore(rest, tail[i - 1]) > LevelScore(rest, tail[i]) {
      assert tail[i - 1] == e[i] && tail[i] == e[i + 1];
    }
    if |tail| > 0 {
      forall k | k in rest && k !in tail ensures LevelScore(rest, k) < LevelScore(rest, tail[|tail| - 1]) {
        assert k !in e;
        assert tail[|tail| - 1] == e[|e| - 1];
      }
    }
  }

  /** Dropping the best level from the map and from an answer leaves an answer for n - 1. */
  lemma RankedTail(levels: map<int, int>, r: seq<int>, n: nat)
    requires Ranked(levels, r, n) && |r| > 0
    ensures n > 0 && Ranked(levels - {r[0]}, r[1..], n - 1)
  {
    var rest := levels - {r[0]};
    assert rest.Keys == levels.Keys - {r[0]};
    assert |rest| == |levels| - 1;
    forall k | k != r[0] ensures LevelScore(rest, k) == LevelScore(levels, k) {
    }
    forall i | 0 <= i < |r| - 1 ensures r[1..][i] == r[i + 1] && r[i + 1] != r[0] {
    }
    forall k, i | k in rest && k !in r[1..] && 0 <= i < |r| - 1
      ensures LevelScore(rest, k) <= LevelScore(rest, r[1..][i])
    {
      assert k !in r;
      assert r[1..][i] == r[i + 1];
    }
  }
}
