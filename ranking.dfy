/** `sort_values(...).head(n)` on an aggregate table. pandas' default sort is
    not stable, so the order among rows with equal scores is not fixed: the
    meaning of a top-n or bottom-n table is stated by IsTop and IsBottom,
    and TopN and BottomN compute one table that meets it. */
module Ranking {
  import opened Records

  ghost predicate NonIncreasing<T>(s: seq<T>, score: T -> int) {
    forall i, j :: 0 <= i < j < |s| ==> score(s[i]) >= score(s[j])
  }

  ghost predicate NonDecreasing<T>(s: seq<T>, score: T -> int) {
    forall i, j :: 0 <= i < j < |s| ==> score(s[i]) <= score(s[j])
  }

  /** `r` is a possible result of `sort_values(score, ascending=False).head(n)`
      on `groups`: the min(n, |groups|) rows with the highest scores, highest
      first; no row left out scores above a row kept. */
  ghost predicate IsTop<T>(groups: seq<T>, score: T -> int, n: nat, r: seq<T>) {
    && |r| == Min(n, |groups|)
    && multiset(r) <= multiset(groups)
    && NonIncreasing(r, score)
    && forall x :: x in multiset(groups) - multiset(r) ==>
         forall i :: 0 <= i < |r| ==> score(x) <= score(r[i])
  }

  /** `r` is a possible result of `sort_values(score).head(n)` on `groups`. */
  ghost predicate IsBottom<T>(groups: seq<T>, score: T -> int, n: nat, r: seq<T>) {
    && |r| == Min(n, |groups|)
    && multiset(r) <= multiset(groups)
    && NonDecreasing(r, score)
    && forall x :: x in multiset(groups) - multiset(r) ==>
         forall i :: 0 <= i < |r| ==> score(r[i]) <= score(x)
  }

  /** Inserts `x` into the non-increasing `s` before the first lower score. */
  function InsertDesc<T>(x: T, s: seq<T>, score: T -> int): (r: seq<T>)
    requires NonIncreasing(s, score)
    ensures NonIncreasing(r, score)
    ensures multiset(r) == multiset(s) + multiset{x}
  {
    if s == [] then [x]
    else if score(x) >= score(s[0]) then [x] + s
    else
      var t := InsertDesc(x, s[1..], score);
      assert s == [s[0]] + s[1..];
      assert forall j :: 0 <= j < |t| ==> score(s[0]) >= score(t[j]) by {
        forall j | 0 <= j < |t| ensures score(s[0]) >= score(t[j]) {
          assert t[j] in multiset(t);
          if t[j] != x {
            assert t[j] in s[1..];
          }
        }
      }
      [s[0]] + t
  }

  /** The rows of `s` by score, highest first. */
  function SortDesc<T>(s: seq<T>, score: T -> int): (r: seq<T>)
    ensures NonIncreasing(r, score)
    ensures multiset(r) == multiset(s)
  {
    if s == [] then []
    else
      assert s == [s[0]] + s[1..];
      InsertDesc(s[0], SortDesc(s[1..], score), score)
  }

  /** `sort_values(score, ascending=False).head(n)`. */
  function TopN<T>(groups: seq<T>, score: T -> int, n: nat): (r: seq<T>)
    ensures IsTop(groups, score, n, r)
  {
    var sorted := SortDesc(groups, score);
    PrefixOfSortedIsTop(groups, sorted, score, n);
    sorted[..Min(n, |sorted|)]
  }

  /** The first n rows of a descending sort of the groups form a top-n table. */
  lemma PrefixOfSortedIsTop<T>(groups: seq<T>, sorted: seq<T>, score: T -> int, n: nat)
    requires NonIncreasing(sorted, score) && multiset(sorted) == multiset(groups)
    ensures IsTop(groups, score, n, sorted[..Min(n, |sorted|)])
  {
    var m := Min(n, |sorted|);
    var r, rest := sorted[..m], sorted[m..];
    assert |r| == Min(n, |groups|) by {
      assert |sorted| == |multiset(sorted)| == |multiset(groups)| == |groups|;
    }
    assert multiset(groups) - multiset(r) == multiset(rest) by {
      assert sorted == r + rest;
    }
    assert NonIncreasing(r, score);
    assert multiset(r) <= multiset(groups) by { assert sorted == r + rest; }
    forall x | x in multiset(rest)
      ensures forall i :: 0 <= i < |r| ==> score(x) <= score(r[i])
    {
      var k :| 0 <= k < |rest| && rest[k] == x;
      assert sorted[m + k] == x;
    }
  }

  /** `sort_values(score).head(n)`: sorting ascending by `score` is sorting
      descending by its negation. */
  function BottomN<T>(groups: seq<T>, score: T -> int, n: nat): (r: seq<T>)
    ensures IsBottom(groups, score, n, r)
  {
    TopN(groups, x => -score(x), n)
  }

  /** With at most n groups, a top-n table holds every group. */
  lemma TopKeepsAllWhenFew<T>(groups: seq<T>, score: T -> int, n: nat, r: seq<T>)
    requires IsTop(groups, score, n, r) && |groups| <= n
    ensures multiset(r) == multiset(groups)
  {
    SubMultisetOfSameSize(multiset(r), multiset(groups));
  }

  /** With at most n groups, a bottom-n table holds every group. */
  lemma BottomKeepsAllWhenFew<T>(groups: seq<T>, score: T -> int, n: nat, r: seq<T>)
    requires IsBottom(groups, score, n, r) && |groups| <= n
    ensures multiset(r) == multiset(groups)
  {
    SubMultisetOfSameSize(multiset(r), multiset(groups));
  }

  lemma SubMultisetOfSameSize<T>(a: multiset<T>, b: multiset<T>)
    requires a <= b && |a| == |b|
    ensures a == b
  {
    assert |b - a| == |b| - |a|;
    assert b - a == multiset{};
  }

  /** Only the order of the groups can differ between top-n tables: a top-n
      table of a reordering of the groups is a top-n table of the groups. */
  lemma TopIgnoresGroupOrder<T>(groups: seq<T>, other: seq<T>, score: T -> int, n: nat, r: seq<T>)
    requires multiset(other) == multiset(groups)
    requires IsTop(other, score, n, r)
    ensures IsTop(groups, score, n, r)
  {
    assert |other| == |multiset(other)| == |multiset(groups)| == |groups|;
  }

  /** The bottom-n counterpart of TopIgnoresGroupOrder. */
  lemma BottomIgnoresGroupOrder<T>(groups: seq<T>, other: seq<T>, score: T -> int, n: nat, r: seq<T>)
    requires multiset(other) == multiset(groups)
    requires IsBottom(other, score, n, r)
    ensures IsBottom(groups, score, n, r)
  {
    assert |other| == |multiset(other)| == |multiset(groups)| == |groups|;
  }
}
