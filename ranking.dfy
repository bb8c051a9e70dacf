/**
 * Station ranking in `forecast_pm25` (work/myflow/test_ml.py:47-48): the mean
 * `PM25.value` per station, then the five stations with the largest mean.
 */
module Ranking {
  import opened Wrappers
  import opened Sequences
  import opened Cleaning

  /** `nlargest(5)`. */
  const TopCount: nat := 5

  /** The station column of a table. */
  function StationsColumn(t: seq<Record>): (r: seq<string>)
    ensures |r| == |t|
    ensures forall i :: 0 <= i < |t| ==> r[i] == t[i].station
  {
    seq(|t|, i requires 0 <= i < |t| => t[i].station)
  }

  /** `df['nameTH'].unique()`: the distinct stations in order of first appearance. */
  function Stations(t: seq<Record>): seq<string> {
    Unique(StationsColumn(t))
  }

  /** The distinct stations are exactly the stations of some row, each listed once. */
  lemma StationsExact(t: seq<Record>, s: string)
    ensures Distinct(Stations(t))
    ensures s in Stations(t) <==> exists i :: 0 <= i < |t| && t[i].station == s
  {
    UniqueProperties(StationsColumn(t));
    UniqueHas(StationsColumn(t), s);
    if s in StationsColumn(t) {
      var i :| 0 <= i < |t| && StationsColumn(t)[i] == s;
      assert t[i].station == s;
    }
  }

  /** Sum of the present values of station `s` (pandas skips NaN). */
  function ValueSum(t: seq<Record>, s: string): real
    decreases |t|
  {
    if t == [] then 0.0
    else
      var last := t[|t| - 1];
      ValueSum(t[..|t| - 1], s) + (if last.station == s && last.value.Some? then last.value.value else 0.0)
  }

  /** Number of present values of station `s`. */
  function ValueCount(t: seq<Record>, s: string): nat
    decreases |t|
  {
    if t == [] then 0
    else
      var last := t[|t| - 1];
      ValueCount(t[..|t| - 1], s) + (if last.station == s && last.value.Some? then 1 else 0)
  }

  /** `groupby('nameTH')['PM25.value'].mean()` for one station. */
  function Mean(t: seq<Record>, s: string): real {
    var n := ValueCount(t, s);
    if n == 0 then 0.0 else ValueSum(t, s) / (n as real)
  }

  /** Python's code-point order on strings. */
  predicate LexLess(a: string, b: string)
    decreases |a|
  {
    if |a| == 0 then |b| > 0
    else if |b| == 0 then false
    else if a[0] < b[0] then true
    else a[0] == b[0] && LexLess(a[1..], b[1..])
  }

  lemma {:induction false} LexTransitive(a: string, b: string, c: string)
    requires LexLess(a, b) && LexLess(b, c)
    ensures LexLess(a, c)
    decreases |a|
  {
    if |a| != 0 && a[0] == b[0] && b[0] == c[0] {
      LexTransitive(a[1..], b[1..], c[1..]);
    }
  }

  lemma {:induction false} LexTotal(a: string, b: string)
    requires a != b
    ensures LexLess(a, b) || LexLess(b, a)
    decreases |a|
  {
    if |a| != 0 && |b| != 0 && a[0] == b[0] {
      assert a == [a[0]] + a[1..] && b == [b[0]] + b[1..];
      LexTotal(a[1..], b[1..]);
    }
  }

  /** Under `score`, `a` is taken before `b`: a larger score, or an equal
      score and a smaller name. */
  predicate Before(score: string -> real, a: string, b: string) {
    score(a) > score(b) || (score(a) == score(b) && LexLess(a, b))
  }

  lemma BeforeTransitive(score: string -> real, a: string, b: string, c: string)
    requires Before(score, a, b) && Before(score, b, c)
    ensures Before(score, a, c)
  {
    if score(a) == score(b) == score(c) {
      LexTransitive(a, b, c);
    }
  }

  /** Index of the candidate taken first under `score`. */
  function Best(score: string -> real, cands: seq<string>): (i: nat)
    requires |cands| > 0
    ensures i < |cands|
    decreases |cands|
  {
    if |cands| == 1 then 0
    else
      var k := Best(score, cands[1..]) + 1;
      if Before(score, cands[0], cands[k]) then 0 else k
  }

  /** The chosen candidate is taken before every other candidate: no other
      has a larger score, and every other with the same score has a larger
      name. */
  lemma {:induction false} BestRanksFirst(score: string -> real, cands: seq<string>, j: nat)
    requires j < |cands| && cands[j] != cands[Best(score, cands)]
    ensures Before(score, cands[Best(score, cands)], cands[j])
    decreases |cands|
  {
    var k := Best(score, cands[1..]) + 1;
    if Before(score, cands[0], cands[k]) {
      assert Best(score, cands) == 0;
      if cands[j] != cands[k] {
        assert cands[1..][j - 1] == cands[j];
        BestRanksFirst(score, cands[1..], j - 1);
        BeforeTransitive(score, cands[0], cands[k], cands[j]);
      }
    } else {
      assert Best(score, cands) == k;
      if j == 0 {
        LexTotal(cands[0], cands[k]);
      } else {
        assert cands[1..][j - 1] == cands[j];
        BestRanksFirst(score, cands[1..], j - 1);
      }
    }
  }

  function RemoveAt(s: seq<string>, i: nat): (r: seq<string>)
    requires i < |s|
    ensures |r| == |s| - 1
  {
    s[..i] + s[i + 1..]
  }

  /** Removing position `i` keeps every other element and, in a list
      without duplicates, loses exactly `s[i]`. */
  lemma RemoveAtHas(s: seq<string>, i: nat, x: string)
    requires i < |s|
    ensures x in RemoveAt(s, i) ==> x in s
    ensures x in s && x != s[i] ==> x in RemoveAt(s, i)
    ensures Distinct(s) ==> s[i] !in RemoveAt(s, i)
  {
    var r := RemoveAt(s, i);
    assert forall j :: 0 <= j < |r| ==> r[j] == if j < i then s[j] else s[j + 1];
    if x in s && x != s[i] {
      var j :| 0 <= j < |s| && s[j] == x;
      if j < i { assert r[j] == x; } else { assert r[j - 1] == x; }
    }
  }

  lemma RemoveAtDistinct(s: seq<string>, i: nat)
    requires i < |s| && Distinct(s)
    ensures Distinct(RemoveAt(s, i))
  {
    var r := RemoveAt(s, i);
    assert forall j :: 0 <= j < |r| ==> r[j] == if j < i then s[j] else s[j + 1];
  }

  /** The `k` best candidates, best first (`nlargest(k).index`). */
  function TopK(score: string -> real, cands: seq<string>, k: nat): seq<string>
    decreases k
  {
    if k == 0 || |cands| == 0 then []
    else
      var i := Best(score, cands);
      [cands[i]] + TopK(score, RemoveAt(cands, i), k - 1)
  }

  lemma {:induction false} TopKLength(score: string -> real, cands: seq<string>, k: nat)
    ensures |TopK(score, cands, k)| == if k < |cands| then k else |cands|
    decreases k
  {
    if k != 0 && |cands| != 0 {
      TopKLength(score, RemoveAt(cands, Best(score, cands)), k - 1);
    }
  }

  lemma {:induction false} TopKMembers(score: string -> real, cands: seq<string>, k: nat, x: string)
    requires x in TopK(score, cands, k)
    ensures x in cands
    decreases k
  {
    var i := Best(score, cands);
    var rest := RemoveAt(cands, i);
    assert TopK(score, cands, k) == [cands[i]] + TopK(score, rest, k - 1);
    if x != cands[i] {
      TopKMembers(score, rest, k - 1, x);
      RemoveAtHas(cands, i, x);
    }
  }

  lemma {:induction false} TopKDistinct(score: string -> real, cands: seq<string>, k: nat)
    requires Distinct(cands)
    ensures Distinct(TopK(score, cands, k))
    decreases k
  {
    if k != 0 && |cands| != 0 {
      var i := Best(score, cands);
      var rest := RemoveAt(cands, i);
      var tail := TopK(score, rest, k - 1);
      assert TopK(score, cands, k) == [cands[i]] + tail;
      RemoveAtDistinct(cands, i);
      TopKDistinct(score, rest, k - 1);
      RemoveAtHas(cands, i, cands[i]);
      if cands[i] in tail {
        TopKMembers(score, rest, k - 1, cands[i]);
      }
    }
  }

  /** Every candidate left out of the selection comes after every one taken
      into it. */
  lemma {:induction false} TopKDominates(score: string -> real, cands: seq<string>, k: nat, x: string, y: string)
    requires Distinct(cands)
    requires x in cands && x !in TopK(score, cands, k) && y in TopK(score, cands, k)
    ensures Before(score, y, x)
    decreases k
  {
    var i := Best(score, cands);
    var rest := RemoveAt(cands, i);
    assert TopK(score, cands, k) == [cands[i]] + TopK(score, rest, k - 1);
    if y == cands[i] {
      BestBeforeMember(score, cands, x);
    } else {
      assert y in TopK(score, rest, k - 1) && x !in TopK(score, rest, k - 1);
      assert x in rest && Distinct(rest) by {
        RemoveAtDistinct(cands, i);
        RemoveAtHas(cands, i, x);
      }
      TopKDominates(score, rest, k - 1, x, y);
    }
  }

  lemma BestBeforeMember(score: string -> real, cands: seq<string>, x: string)
    requires x in cands && x != cands[Best(score, cands)]
    ensures Before(score, cands[Best(score, cands)], x)
  {
    var j :| 0 <= j < |cands| && cands[j] == x;
    BestRanksFirst(score, cands, j);
  }

  /** The selection is listed in order. */
  lemma {:induction false} TopKDescending(score: string -> real, cands: seq<string>, k: nat, a: nat, b: nat)
    requires Distinct(cands)
    requires a < b < |TopK(score, cands, k)|
    ensures Before(score, TopK(score, cands, k)[a], TopK(score, cands, k)[b])
    decreases k
  {
    var i := Best(score, cands);
    var rest := RemoveAt(cands, i);
    var tail := TopK(score, rest, k - 1);
    assert TopK(score, cands, k) == [cands[i]] + tail;
    RemoveAtDistinct(cands, i);
    if a == 0 {
      var x := tail[b - 1];
      TopKMembers(score, rest, k - 1, x);
      RemoveAtHas(cands, i, x);
      BestBeforeMember(score, cands, x);
    } else {
      TopKDescending(score, rest, k - 1, a - 1, b - 1);
    }
  }

  /** The score the ranking uses: each station's mean. */
  function MeanOf(t: seq<Record>): string -> real {
    s => Mean(t, s)
  }

  /** Station `a` ranks before `b`: a larger mean, or an equal mean and a
      smaller name (grouping sorts the names and `nlargest` keeps the first
      of equal values). */
  predicate RanksBefore(t: seq<Record>, a: string, b: string) {
    Before(MeanOf(t), a, b)
  }


  /** `top_5_locations`. */
  function Rank(t: seq<Record>): seq<string> {
    TopK(MeanOf(t), Stations(t), TopCount)
  }

  /** The top list has min(5, #stations) distinct names, all stations of the
      table, listed in rank order, and every unlisted station ranks after
      every listed one. */
  lemma RankProperties(t: seq<Record>)
    ensures |Rank(t)| == if TopCount < |Stations(t)| then TopCount else |Stations(t)|
    ensures Distinct(Rank(t))
    ensures forall x :: x in Rank(t) ==> x in Stations(t)
    ensures forall x, y :: x in Stations(t) && x !in Rank(t) && y in Rank(t) ==> RanksBefore(t, y, x)
    ensures forall a, b :: 0 <= a < b < |Rank(t)| ==> RanksBefore(t, Rank(t)[a], Rank(t)[b])
  {
    var score := MeanOf(t);
    StationsExact(t, "");
    TopKLength(score, Stations(t), TopCount);
    TopKDistinct(score, Stations(t), TopCount);
    forall x | x in Rank(t) ensures x in Stations(t) {
      TopKMembers(score, Stations(t), TopCount, x);
    }
    forall x, y | x in Stations(t) && x !in Rank(t) && y in Rank(t)
      ensures RanksBefore(t, y, x)
    {
      TopKDominates(score, Stations(t), TopCount, x, y);
    }
    forall a, b | 0 <= a < b < |Rank(t)|
      ensures RanksBefore(t, Rank(t)[a], Rank(t)[b])
    {
      TopKDescending(score, Stations(t), TopCount, a, b);
    }
  }
}
