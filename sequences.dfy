/** Generic facts about sequences used by every stage of the pipeline. */
module Sequences {

  /** Keeps the elements satisfying `p`, in their original order (a boolean mask). */
  function Filter<T>(s: seq<T>, p: T -> bool): (r: seq<T>)
    ensures |r| <= |s|
    decreases |s|
  {
    if s == [] then []
    else Filter(s[..|s| - 1], p) + (if p(s[|s| - 1]) then [s[|s| - 1]] else [])
  }

  /** `a` can be obtained from `b` by deleting elements: order is preserved. */
  predicate IsSubsequence<T(==)>(a: seq<T>, b: seq<T>)
    decreases |b|
  {
    if a == [] then true
    else if b == [] then false
    else if a[|a| - 1] == b[|b| - 1] then IsSubsequence(a[..|a| - 1], b[..|b| - 1])
    else IsSubsequence(a, b[..|b| - 1])
  }

  predicate Distinct<T(==)>(s: seq<T>) {
    forall i, j :: 0 <= i < j < |s| ==> s[i] != s[j]
  }

  /** The distinct elements of `s` in order of first appearance (pandas `unique`). */
  function Unique<T(==)>(s: seq<T>): (r: seq<T>)
    decreases |s|
  {
    if s == [] then []
    else
      var prev := Unique(s[..|s| - 1]);
      if s[|s| - 1] in prev then prev else prev + [s[|s| - 1]]
  }

  /** Index of the first occurrence of `x` in `s`. */
  function FirstIndex<T(==)>(s: seq<T>, x: T): (i: nat)
    requires x in s
    ensures i < |s| && s[i] == x
    ensures forall j :: 0 <= j < i ==> s[j] != x
  {
    if s[0] == x then 0 else 1 + FirstIndex(s[1..], x)
  }

  lemma {:induction false} FilterMembership<T>(s: seq<T>, p: T -> bool, x: T)
    ensures x in Filter(s, p) <==> x in s && p(x)
    decreases |s|
  {
    if s != [] {
      assert s == s[..|s| - 1] + [s[|s| - 1]];
      FilterMembership(s[..|s| - 1], p, x);
    }
  }
  lemma FilterMembershipAll<T>(s: seq<T>, p: T -> bool)
    ensures forall x :: x in Filter(s, p) <==> x in s && p(x)
  {
    forall x ensures x in Filter(s, p) <==> x in s && p(x) {
      FilterMembership(s, p, x);
    }
  }


  lemma {:induction false} FilterIsSubsequence<T>(s: seq<T>, p: T -> bool)
    ensures IsSubsequence(Filter(s, p), s)
    decreases |s|
  {
    if s != [] {
      var init, last := s[..|s| - 1], s[|s| - 1];
      assert s == init + [last];
      FilterIsSubsequence(init, p);
      if p(last) {
        var f := Filter(init, p) + [last];
        assert Filter(s, p) == f;
        assert f[..|f| - 1] == Filter(init, p);
      } else {
        assert Filter(s, p) == Filter(init, p);
        SubsequenceExtend(Filter(init, p), init, last);
      }
    }
  }

  /** Two successive masks are one mask with the conjunction. */
  lemma {:induction false} FilterFilter<T>(s: seq<T>, p: T -> bool, q: T -> bool, both: T -> bool)
    requires forall x :: both(x) == (p(x) && q(x))
    ensures Filter(Filter(s, p), q) == Filter(s, both)
    decreases |s|
  {
    if s != [] {
      var init := s[..|s| - 1];
      var last := s[|s| - 1];
      FilterFilter(init, p, q, both);
      var fp := Filter(s, p);
      if p(last) {
        assert fp[..|fp| - 1] == Filter(init, p);
      } else {
        assert fp == Filter(init, p);
      }
    }
  }

  lemma {:induction false} SubsequenceExtend<T>(a: seq<T>, b: seq<T>, x: T)
    requires IsSubsequence(a, b)
    ensures IsSubsequence(a, b + [x])
    decreases |b|, 1
  {
    if a != [] {
      var bx := b + [x];
      assert bx[..|bx| - 1] == b;
      if a[|a| - 1] == x {
        SubsequenceShrink(a, b);
      }
    }
  }

  lemma {:induction false} SubsequenceShrink<T>(a: seq<T>, b: seq<T>)
    requires a != [] && IsSubsequence(a, b)
    ensures IsSubsequence(a[..|a| - 1], b)
    decreases |b|, 0
  {
    var init := a[..|a| - 1];
    if init != [] {
      var bi := b[..|b| - 1];
      if a[|a| - 1] == b[|b| - 1] {
        SubsequenceExtend(init, bi, b[|b| - 1]);
        assert bi + [b[|b| - 1]] == b;
      } else {
        SubsequenceShrink(a, bi);
        SubsequenceExtend(init, bi, b[|b| - 1]);
        assert bi + [b[|b| - 1]] == b;
      }
    }
  }

  lemma {:induction false} SubsequenceMembers<T>(a: seq<T>, b: seq<T>)
    requires IsSubsequence(a, b)
    ensures forall x :: x in a ==> x in b
    decreases |b|
  {
    if a != [] {
      var bi := b[..|b| - 1];
      if a[|a| - 1] == b[|b| - 1] {
        SubsequenceMembers(a[..|a| - 1], bi);
        assert a == a[..|a| - 1] + [a[|a| - 1]];
        assert b == bi + [b[|b| - 1]];
      } else {
        SubsequenceMembers(a, bi);
        assert b == bi + [b[|b| - 1]];
      }
    }
  }

  lemma {:induction false} SubsequenceDistinct<T>(a: seq<T>, b: seq<T>)
    requires IsSubsequence(a, b) && Distinct(b)
    ensures Distinct(a)
    decreases |b|
  {
    if a != [] {
      var bi := b[..|b| - 1];
      var ai := a[..|a| - 1];
      assert Distinct(bi);
      if a[|a| - 1] == b[|b| - 1] {
        SubsequenceDistinct(ai, bi);
        SubsequenceMembers(ai, bi);
        assert forall i :: 0 <= i < |ai| ==> ai[i] in bi;
        assert b[|b| - 1] !in bi;
      } else {
        SubsequenceDistinct(a, bi);
      }
    }
  }

  lemma {:induction false} UniqueProperties<T>(s: seq<T>)
    ensures Distinct(Unique(s))
    ensures forall x :: x in Unique(s) <==> x in s
    ensures IsSubsequence(Unique(s), s)
    decreases |s|
  {
    if s != [] {
      var init := s[..|s| - 1];
      var last := s[|s| - 1];
      UniqueProperties(init);
      assert s == init + [last];
      var prev := Unique(init);
      if last in prev {
        SubsequenceExtend(prev, init, last);
      } else {
        var u := prev + [last];
        assert u[..|u| - 1] == prev;
      }
    }
  }

  lemma UniqueHas<T>(s: seq<T>, x: T)
    ensures x in Unique(s) <==> x in s
  {
    UniqueProperties(s);
  }

  /** `Unique` lists the elements in order of their first occurrence in `s`. */
  lemma {:induction false} UniqueFirstAppearance<T>(s: seq<T>, i: nat, j: nat)
    requires i < j < |Unique(s)|
    ensures Unique(s)[i] in s && Unique(s)[j] in s
    ensures FirstIndex(s, Unique(s)[i]) < FirstIndex(s, Unique(s)[j])
    decreases |s|
  {
    UniqueProperties(s);
    var x := Unique(s)[i];
    var y := Unique(s)[j];
    UniqueHas(s, x);
    UniqueHas(s, y);
    var init := s[..|s| - 1];
    var last := s[|s| - 1];
    assert s == init + [last];
    var prev := Unique(init);
    UniqueProperties(init);
    FirstIndexPrefix(init, last, x);
    FirstIndexPrefix(init, last, y);
    if last in prev || j < |prev| {
      assert x == prev[i] && y == prev[j];
      UniqueFirstAppearance(init, i, j);
    } else {
      assert x == prev[i] && x in prev;
      assert y == last && last !in init;
    }
  }

  lemma FirstIndexPrefix<T>(init: seq<T>, last: T, x: T)
    requires x in init + [last]
    ensures x in init ==> FirstIndex(init + [last], x) == FirstIndex(init, x)
    ensures x !in init ==> FirstIndex(init + [last], x) == |init|
  {
    var s := init + [last];
    var k := FirstIndex(s, x);
    if x in init {
      var k' := FirstIndex(init, x);
      assert s[k'] == x;
      assert k <= k';
      assert init[k] == x;
    } else {
      assert forall m :: 0 <= m < |init| ==> s[m] != x;
    }
  }

  lemma {:induction false} FilterKeepsAll<T>(s: seq<T>, p: T -> bool)
    requires forall x :: x in s ==> p(x)
    ensures Filter(s, p) == s
    decreases |s|
  {
    if s != [] {
      assert s == s[..|s| - 1] + [s[|s| - 1]];
      FilterKeepsAll(s[..|s| - 1], p);
    }
  }

  lemma {:induction false} FilterDropsAll<T>(s: seq<T>, p: T -> bool)
    requires forall x :: x in s ==> !p(x)
    ensures Filter(s, p) == []
    decreases |s|
  {
    if s != [] {
      assert s == s[..|s| - 1] + [s[|s| - 1]];
      FilterDropsAll(s[..|s| - 1], p);
    }
  }

  /** A subsequence of a sequence without repetitions keeps its order. */
  lemma {:induction false} SubsequenceOrder<T>(a: seq<T>, b: seq<T>, i: nat, j: nat)
    requires IsSubsequence(a, b) && Distinct(b) && i < j < |a|
    ensures a[i] in b && a[j] in b
    ensures FirstIndex(b, a[i]) < FirstIndex(b, a[j])
    decreases |b|, 1
  {
    SubsequenceMembers(a, b);
    assert a[i] in a && a[j] in a;
    if a[|a| - 1] == b[|b| - 1] {
      SubsequenceOrderLast(a, b, i, j);
    } else {
      SubsequenceOrderSkip(a, b, i, j);
    }
  }

  /** The last element of `a` is matched by the last element of `b`. */
  lemma {:induction false} SubsequenceOrderLast<T>(a: seq<T>, b: seq<T>, i: nat, j: nat)
    requires IsSubsequence(a, b) && Distinct(b) && i < j < |a|
    requires a[i] in b && a[j] in b && a[|a| - 1] == b[|b| - 1]
    ensures FirstIndex(b, a[i]) < FirstIndex(b, a[j])
    decreases |b|, 0
  {
    var b', last := b[..|b| - 1], b[|b| - 1];
    var a' := a[..|a| - 1];
    assert b == b' + [last];
    assert Distinct(b');
    SubsequenceMembers(a', b');
    assert a[i] == a'[i] && a'[i] in a';
    FirstIndexPrefix(b', last, a[i]);
    FirstIndexPrefix(b', last, a[j]);
    if j < |a| - 1 {
      assert a[j] == a'[j];
      SubsequenceOrder(a', b', i, j);
    } else {
      assert last !in b';
    }
  }

  /** The last element of `b` is not used by `a`. */
  lemma {:induction false} SubsequenceOrderSkip<T>(a: seq<T>, b: seq<T>, i: nat, j: nat)
    requires IsSubsequence(a, b) && Distinct(b) && i < j < |a|
    requires a[i] in b && a[j] in b && a[|a| - 1] != b[|b| - 1]
    ensures FirstIndex(b, a[i]) < FirstIndex(b, a[j])
    decreases |b|, 0
  {
    var b', last := b[..|b| - 1], b[|b| - 1];
    assert b == b' + [last];
    assert Distinct(b');
    SubsequenceMembers(a, b');
    assert a[i] in a && a[j] in a;
    FirstIndexPrefix(b', last, a[i]);
    FirstIndexPrefix(b', last, a[j]);
    SubsequenceOrder(a, b', i, j);
  }


  /** Order in a subsequence of `Unique(s)` is order of first appearance in `s`. */
  lemma SubsequenceOfUniqueOrder<T>(a: seq<T>, s: seq<T>, i: nat, j: nat)
    requires IsSubsequence(a, Unique(s)) && i < j < |a|
    ensures a[i] in s && a[j] in s
    ensures FirstIndex(s, a[i]) < FirstIndex(s, a[j])
  {
    var u := Unique(s);
    UniqueProperties(s);
    SubsequenceOrder(a, u, i, j);
    var p, q := FirstIndex(u, a[i]), FirstIndex(u, a[j]);
    UniqueFirstAppearance(s, p, q);
  }
}
