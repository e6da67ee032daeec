/** Lists filtered in order. */
module Lists {
  /** The elements that pass a test, in their order. */
  function Filter<T>(s: seq<T>, keep: T -> bool): seq<T> {
    if s == [] then []
    else
      var front := Filter(s[..|s| - 1], keep);
      if keep(s[|s| - 1]) then front + [s[|s| - 1]] else front
  }

  lemma {:induction false} FilterKeeps<T>(s: seq<T>, keep: T -> bool, t: T)
    ensures t in Filter(s, keep) <==> t in s && keep(t)
  {
    if s != [] {
      FilterKeeps(s[..|s| - 1], keep, t);
      assert s == s[..|s| - 1] + [s[|s| - 1]];
    }
  }

  lemma {:induction false} FilterAppend<T>(a: seq<T>, b: seq<T>, keep: T -> bool)
    ensures Filter(a + b, keep) == Filter(a, keep) + Filter(b, keep)
    decreases |b|
  {
    if b == [] {
      assert a + b == a;
    } else {
      FilterAppend(a, b[..|b| - 1], keep);
      assert (a + b)[..|a + b| - 1] == a + b[..|b| - 1];
    }
  }

  /** Filtering splits a list in two. */
  lemma {:induction false} FilterSplits<T>(s: seq<T>, keep: T -> bool, drop: T -> bool)
    requires forall t :: t in s ==> keep(t) != drop(t)
    ensures |Filter(s, keep)| + |Filter(s, drop)| == |s|
  {
    if s != [] {
      assert forall t :: t in s[..|s| - 1] ==> t in s;
      assert s[|s| - 1] in s;
      FilterSplits(s[..|s| - 1], keep, drop);
    }
  }

  lemma {:induction false} FilterShrinks<T>(s: seq<T>, few: T -> bool, many: T -> bool)
    requires forall t :: t in s && few(t) ==> many(t)
    ensures |Filter(s, few)| <= |Filter(s, many)| <= |s|
  {
    if s != [] {
      assert forall t :: t in s[..|s| - 1] ==> t in s;
      assert s[|s| - 1] in s;
      FilterShrinks(s[..|s| - 1], few, many);
    }
  }

  lemma SubsetOfSameSize<T>(a: set<T>, b: set<T>)
    requires a <= b && |a| == |b|
    ensures a == b
  {
    assert |b - a| == |b| - |a|;
    assert b - a == {};
  }

  lemma {:induction false} FilterNothing<T>(s: seq<T>, keep: T -> bool)
    requires forall t :: t in s ==> !keep(t)
    ensures Filter(s, keep) == []
  {
    if s != [] {
      assert s[|s| - 1] in s;
      assert forall t :: t in s[..|s| - 1] ==> t in s;
      FilterNothing(s[..|s| - 1], keep);
    }
  }

  lemma {:induction false} FilterAgrees<T>(s: seq<T>, f: T -> bool, g: T -> bool)
    requires forall t :: t in s ==> f(t) == g(t)
    ensures Filter(s, f) == Filter(s, g)
  {
    if s != [] {
      assert s[|s| - 1] in s;
      assert forall t :: t in s[..|s| - 1] ==> t in s;
      FilterAgrees(s[..|s| - 1], f, g);
    }
  }
}
