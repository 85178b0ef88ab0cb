/** Sequence helpers standing for the two row-level primitives of the SQL driver:
    `.get` (the first row that matches) and a `WHERE` filter (every row that matches, in order). */
module Seqs {
  import opened Wrappers

  /** Index of the first element satisfying `p`, if any. */
  function FirstIndex<T>(s: seq<T>, p: T -> bool): (r: Option<nat>)
    ensures r.Some? ==> r.value < |s| && p(s[r.value])
    ensures r.Some? ==> forall j :: 0 <= j < r.value ==> !p(s[j])
    ensures r.None? <==> forall j :: 0 <= j < |s| ==> !p(s[j])
  {
    if s == [] then None
    else if p(s[0]) then Some(0)
    else match FirstIndex(s[1..], p)
      case None => None
      case Some(i) => Some(i + 1)
  }

  /** The first element satisfying `p` is the one `FirstIndex` finds. */
  lemma FirstIndexOf<T>(s: seq<T>, p: T -> bool, i: nat)
    requires i < |s| && p(s[i])
    requires forall j :: 0 <= j < i ==> !p(s[j])
    ensures FirstIndex(s, p) == Some(i)
  {
  }

  /** The elements satisfying `p`, in their original order. */
  function Keep<T>(s: seq<T>, p: T -> bool): (r: seq<T>)
    ensures |r| <= |s|
    ensures forall i :: 0 <= i < |r| ==> r[i] in s && p(r[i])
    ensures forall j :: 0 <= j < |s| && p(s[j]) ==> s[j] in r
    ensures (forall j :: 0 <= j < |s| ==> p(s[j])) ==> r == s
  {
    if s == [] then []
    else if p(s[0]) then [s[0]] + Keep(s[1..], p)
    else Keep(s[1..], p)
  }

  /** A filter keeps every occurrence of a value that satisfies it and none of the others. */
  lemma {:induction false} KeepCounts<T>(s: seq<T>, p: T -> bool)
    ensures forall v :: multiset(Keep(s, p))[v] == if p(v) then multiset(s)[v] else 0
  {
    if s != [] {
      KeepCounts(s[1..], p);
      assert s == [s[0]] + s[1..];
    }
  }

  lemma {:induction false} KeepAppend<T>(a: seq<T>, b: seq<T>, p: T -> bool)
    ensures Keep(a + b, p) == Keep(a, p) + Keep(b, p)
  {
    if a == [] {
      assert a + b == b;
    } else {
      assert (a + b)[1..] == a[1..] + b;
      KeepAppend(a[1..], b, p);
    }
  }

  /** `a` can be obtained from `b` by deleting elements, keeping the order. */
  predicate IsSubsequence<T(==)>(a: seq<T>, b: seq<T>)
    decreases |b|
  {
    if a == [] then true
    else if b == [] then false
    else if a[0] == b[0] then IsSubsequence(a[1..], b[1..])
    else IsSubsequence(a, b[1..])
  }

  /** Filtering out a single element. */
  lemma KeepDropsOne<T>(before: seq<T>, x: T, after: seq<T>, p: T -> bool)
    requires forall j :: 0 <= j < |before| ==> p(before[j])
    requires forall j :: 0 <= j < |after| ==> p(after[j])
    requires !p(x)
    ensures Keep(before + [x] + after, p) == before + after
  {
    assert Keep(before, p) == before;
    assert Keep(after, p) == after;
    assert Keep([x], p) == [];
    KeepAppend(before, [x], p);
    assert Keep(before + [x], p) == before;
    KeepAppend(before + [x], after, p);
  }

  /** A filter keeps every ordered relation that held between the elements it started from. */
  lemma {:induction false} KeepKeepsOrder<T>(s: seq<T>, p: T -> bool, rel: (T, T) -> bool)
    requires forall i, j :: 0 <= i < j < |s| ==> rel(s[i], s[j])
    ensures forall i, j :: 0 <= i < j < |Keep(s, p)| ==> rel(Keep(s, p)[i], Keep(s, p)[j])
  {
    if s != [] {
      KeepKeepsOrder(s[1..], p, rel);
      if p(s[0]) {
        var k := Keep(s[1..], p);
        forall j | 0 < j < |Keep(s, p)|
          ensures rel(s[0], Keep(s, p)[j])
        {
          assert Keep(s, p)[j] == k[j - 1];
          var m :| 0 <= m < |s[1..]| && s[1..][m] == k[j - 1];
          assert s[m + 1] == k[j - 1];
        }
      }
    }
  }

  /** A filter's result is a subsequence of its input. */
  lemma {:induction false} KeepIsSubsequence<T>(s: seq<T>, p: T -> bool)
    ensures IsSubsequence(Keep(s, p), s)
  {
    if s != [] {
      KeepIsSubsequence(s[1..], p);
    }
  }

  /** Two filters in a row are one filter on the conjunction. */
  lemma {:induction false} KeepKeep<T>(s: seq<T>, p: T -> bool, c: T -> bool, m: T -> bool)
    requires forall x :: m(x) == (p(x) && c(x))
    ensures Keep(Keep(s, p), c) == Keep(s, m)
  {
    if s != [] {
      KeepKeep(s[1..], p, c, m);
      if p(s[0]) {
        assert Keep(s, p) == [s[0]] + Keep(s[1..], p);
        assert ([s[0]] + Keep(s[1..], p))[1..] == Keep(s[1..], p);
      }
    }
  }

  /** Filters on the same condition agree. */
  lemma {:induction false} KeepSame<T>(s: seq<T>, p: T -> bool, m: T -> bool)
    requires forall x :: m(x) == p(x)
    ensures Keep(s, p) == Keep(s, m)
  {
    if s != [] {
      KeepSame(s[1..], p, m);
    }
  }
}

