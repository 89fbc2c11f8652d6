/** Comparators, and rearrangements of a stretch of a sequence. */
module Ordering {
  type Comparator<!T> = (T, T) -> int

  /** The sign of `cmp` orders any two elements: what the callers of `qsort_mt` promise. */
  ghost predicate Preorder<T(!new)>(cmp: Comparator<T>) {
    && (forall x, y :: cmp(x, y) < 0 <==> cmp(y, x) > 0)
    && (forall x, y, z :: cmp(x, y) <= 0 && cmp(y, z) <= 0 ==> cmp(x, z) <= 0)
  }

  ghost predicate Sorted<T>(s: seq<T>, lo: int, hi: int, cmp: Comparator<T>)
    requires 0 <= lo <= hi <= |s|
  {
    forall i, j :: lo <= i < j < hi ==> cmp(s[i], s[j]) <= 0
  }

  /** `t` is `s` with the elements from `lo` up to `hi` rearranged. */
  ghost predicate Shuffled<T>(s: seq<T>, t: seq<T>, lo: int, hi: int) {
    && |s| == |t| && 0 <= lo <= hi <= |s|
    && (forall i :: 0 <= i < lo || hi <= i < |s| ==> t[i] == s[i])
    && multiset(t[lo..hi]) == multiset(s[lo..hi])
  }

  lemma {:induction false} ShuffledTrans<T>(s: seq<T>, t: seq<T>, u: seq<T>, lo: int, hi: int)
    requires Shuffled(s, t, lo, hi) && Shuffled(t, u, lo, hi)
    ensures Shuffled(s, u, lo, hi)
  {
  }

  /** Rearranging part of a stretch rearranges the stretch. */
  lemma {:induction false} ShuffledWiden<T>(s: seq<T>, t: seq<T>, lo: int, hi: int, lo': int, hi': int)
    requires Shuffled(s, t, lo, hi) && 0 <= lo' <= lo && hi <= hi' <= |s|
    ensures Shuffled(s, t, lo', hi')
  {
    assert s[lo'..hi'] == s[lo'..lo] + s[lo..hi] + s[hi..hi'];
    assert t[lo'..hi'] == t[lo'..lo] + t[lo..hi] + t[hi..hi'];
    assert s[lo'..lo] == t[lo'..lo] && s[hi..hi'] == t[hi..hi'];
  }

  /** Rearranging part of a rearranged stretch rearranges it. */
  lemma {:induction false} ShuffledInside<T>(s0: seq<T>, s: seq<T>, t: seq<T>, lo: int, hi: int, base: int, top: int)
    requires Shuffled(s0, s, base, top) && Shuffled(s, t, lo, hi) && 0 <= base <= lo && hi <= top
    ensures Shuffled(s0, t, base, top)
  {
    ShuffledWiden(s, t, lo, hi, base, top);
    ShuffledTrans(s0, s, t, base, top);
  }

  lemma {:induction false} ShuffledSwap<T>(s: seq<T>, i: int, j: int, lo: int, hi: int)
    requires 0 <= lo <= i < hi <= |s| && lo <= j < hi
    ensures Shuffled(s, s[i := s[j]][j := s[i]], lo, hi)
  {
    var t := s[lo..hi];
    assert s[i := s[j]][j := s[i]][lo..hi] == t[i - lo := t[j - lo]][j - lo := t[i - lo]];
  }

  /** Every element found after a rearrangement was there before it. */
  lemma {:induction false} ShuffledFrom<T>(s: seq<T>, t: seq<T>, lo: int, hi: int, i: int) returns (j: int)
    requires Shuffled(s, t, lo, hi) && lo <= i < hi
    ensures lo <= j < hi && t[i] == s[j]
  {
    assert t[lo..hi][i - lo] in multiset(t[lo..hi]);
    assert t[i] in multiset(s[lo..hi]);
    assert t[i] in s[lo..hi];
    var k :| 0 <= k < hi - lo && s[lo..hi][k] == t[i];
    j := lo + k;
  }
}
